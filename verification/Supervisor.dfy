/** The compute engine's process supervisor: at most one script shell at a time, tracked
    together with a record of its launch. The host's live shells are part of the state. */
module Supervisor {
  import opened Collections

  /** The RANK and WORLD_SIZE variables of a launch. */
  datatype Env = Env(rank: int, worldSize: int)

  datatype Execution = Execution(pid: nat, env: Env, ended: bool, exitCode: Option<int>)

  /** live maps the launched shells still alive on the host to the environment each was
      launched with; spawned counts the process ids handed out. */
  datatype Agent = Agent(tracked: Option<nat>, last: Option<Execution>, live: map<nat, Env>, spawned: nat)

  /** What the operating system does with a launch. */
  datatype Spawn = SpawnFails | ExitsAtOnce(code: Option<int>) | StaysUp | WaitUnknown

  datatype Waited = Reaped(code: Option<int>) | WaitError | TimedOut

  datatype StartReply = Started | Exited | AlreadyRunning | StartError

  datatype StopReply = Stopped | ForceStopped | StopError | NothingRunning

  datatype StatusReply = NotRunning | StillRunning | HasExited | StatusError

  predicate TrackedLive(a: Agent) {
    a.tracked.Some? && a.tracked.value in a.live
  }

  function OnStart(a: Agent, env: Env, waitFails: bool, spawn: Spawn): (Agent, StartReply) {
    if TrackedLive(a) && !waitFails then (a, AlreadyRunning)
    else
      var b := a.(tracked := None);
      var pid := b.spawned;
      match spawn
      case SpawnFails => (b, StartError)
      case ExitsAtOnce(code) =>
        (b.(last := Some(Execution(pid, env, true, code)), spawned := pid + 1), Exited)
      case StaysUp =>
        (Agent(Some(pid), Some(Execution(pid, env, false, None)), b.live[pid := env], pid + 1), Started)
      case WaitUnknown =>
        (b.(live := b.live[pid := env], spawned := pid + 1), StartError)
  }

  function Ended(last: Option<Execution>, code: Option<int>): Option<Execution> {
    match last
    case Some(e) => Some(e.(ended := true, exitCode := code))
    case None => None
  }

  function OnStop(a: Agent, killed: bool, waited: Waited): (Agent, StopReply) {
    match a.tracked
    case None => (a, NothingRunning)
    case Some(pid) =>
      var b := a.(tracked := None, live := if killed then a.live - {pid} else a.live);
      match waited
      case Reaped(code) => (b.(last := Ended(b.last, code)), Stopped)
      case WaitError => (b, StopError)
      case TimedOut => (b.(last := match b.last case Some(e) => Some(e.(ended := true)) case None => None), ForceStopped)
  }

  function OnStatus(a: Agent, waitFails: bool, code: Option<int>): (Agent, StatusReply) {
    match a.tracked
    case None => (a, NotRunning)
    case Some(pid) =>
      if waitFails then (a.(tracked := None), StatusError)
      else if pid in a.live then (a, StillRunning)
      else (a.(tracked := None, last := Ended(a.last, code)), HasExited)
  }

  datatype Step =
    | Start(env: Env, waitFails: bool, spawn: Spawn)
    | Stop(killed: bool, waited: Waited)
    | Status(waitFails: bool, code: Option<int>)
    | ProcessExits(pid: nat)

  function Next(a: Agent, step: Step): Agent {
    match step
    case Start(env, waitFails, spawn) => OnStart(a, env, waitFails, spawn).0
    case Stop(killed, waited) => OnStop(a, killed, waited).0
    case Status(waitFails, code) => OnStatus(a, waitFails, code).0
    case ProcessExits(pid) => a.(live := a.live - {pid})
  }

  function Run(a: Agent, steps: seq<Step>): Agent
    decreases |steps|
  {
    if steps == [] then a else Run(Next(a, steps[0]), steps[1..])
  }

  const IDLE := Agent(None, None, map[], 0)

  /** Every live shell is the tracked one, and the tracked process is the last execution,
      recorded as not ended, with the environment it really has. */
  predicate Supervised(a: Agent) {
    && (forall pid :: pid in a.live ==> a.tracked == Some(pid))
    && (a.tracked.Some? ==>
          && a.last.Some? && a.last.value.pid == a.tracked.value && !a.last.value.ended
          && a.tracked.value < a.spawned
          && (TrackedLive(a) ==> a.live[a.tracked.value] == a.last.value.env))
  }

  lemma AtMostOneShell(a: Agent)
    requires Supervised(a)
    ensures |a.live| <= 1
  {
    if a.live.Keys != {} {
      var pid :| pid in a.live;
      assert a.live.Keys == {pid};
    }
    assert |a.live| == |a.live.Keys|;
  }

  /** The operating system lets the supervisor down: waiting on a live shell errors, a kill
      does not kill, or a fresh shell cannot be waited on. */
  predicate Betrayed(a: Agent, step: Step) {
    match step
    case Start(_, waitFails, spawn) =>
      if TrackedLive(a) then waitFails else spawn.WaitUnknown?
    case Stop(killed, _) => TrackedLive(a) && !killed
    case Status(waitFails, _) => TrackedLive(a) && waitFails
    case ProcessExits(_) => false
  }

  /** Supervision survives a step exactly when the operating system does its part. */
  lemma SupervisedExactlyWhen(a: Agent, step: Step)
    requires Supervised(a)
    ensures Supervised(Next(a, step)) <==> !Betrayed(a, step)
  {
    if Betrayed(a, step) {
      var b := Next(a, step);
      if TrackedLive(a) {
        assert a.tracked.value in b.live && b.tracked != a.tracked;
      } else {
        assert a.spawned in b.live;
      }
    }
  }

  predicate NeverBetrayed(a: Agent, steps: seq<Step>)
    decreases |steps|
  {
    steps != [] ==> !Betrayed(a, steps[0]) && NeverBetrayed(Next(a, steps[0]), steps[1..])
  }

  lemma {:induction false} SupervisedOverEveryRun(a: Agent, steps: seq<Step>)
    requires Supervised(a) && NeverBetrayed(a, steps)
    ensures Supervised(Run(a, steps)) && |Run(a, steps).live| <= 1
    decreases |steps|
  {
    if steps == [] {
      AtMostOneShell(a);
    } else {
      SupervisedExactlyWhen(a, steps[0]);
      SupervisedOverEveryRun(Next(a, steps[0]), steps[1..]);
    }
  }

  /** In particular since the supervisor was started. */
  lemma SupervisedFromStart(steps: seq<Step>)
    requires NeverBetrayed(IDLE, steps)
    ensures Supervised(Run(IDLE, steps)) && |Run(IDLE, steps).live| <= 1
  {
    SupervisedOverEveryRun(IDLE, steps);
  }

  /** AppState with the two mutex-guarded fields, and the host it launches on. Each handler is
      one critical section. */
  class AppState {
    var scriptProcess: Option<nat>
    var lastExecution: Option<Execution>
    var live: map<nat, Env>
    var spawned: nat

    constructor ()
      ensures Snapshot() == IDLE
    {
      scriptProcess, lastExecution, live, spawned := None, None, map[], 0;
    }

    function Snapshot(): Agent
      reads this
    {
      Agent(scriptProcess, lastExecution, live, spawned)
    }

    method StartScript(env: Env, waitFails: bool, spawn: Spawn) returns (reply: StartReply)
      modifies this
      ensures (Snapshot(), reply) == OnStart(old(Snapshot()), env, waitFails, spawn)
    {
      if scriptProcess.Some? {
        if waitFails {
          scriptProcess := None;
        } else if scriptProcess.value in live {
          return AlreadyRunning;
        } else {
          scriptProcess := None;
        }
      }
      if spawn.SpawnFails? {
        return StartError;
      }
      var pid := spawned;
      spawned := spawned + 1;
      var info := Execution(pid, env, false, None);
      match spawn {
        case ExitsAtOnce(code) =>
          lastExecution := Some(info.(ended := true, exitCode := code));
          return Exited;
        case StaysUp =>
          live := live[pid := env];
          scriptProcess := Some(pid);
          lastExecution := Some(info);
          return Started;
        case WaitUnknown =>
          live := live[pid := env];
          return StartError;
      }
    }

    method StopScript(killed: bool, waited: Waited) returns (reply: StopReply)
      modifies this
      ensures (Snapshot(), reply) == OnStop(old(Snapshot()), killed, waited)
    {
      if scriptProcess.None? {
        return NothingRunning;
      }
      var pid := scriptProcess.value;
      scriptProcess := None;
      if killed {
        live := live - {pid};
      }
      match waited {
        case Reaped(code) =>
          if lastExecution.Some? {
            lastExecution := Some(lastExecution.value.(ended := true, exitCode := code));
          }
          return Stopped;
        case WaitError =>
          return StopError;
        case TimedOut =>
          if lastExecution.Some? {
            lastExecution := Some(lastExecution.value.(ended := true));
          }
          return ForceStopped;
      }
    }

    method GetStatus(waitFails: bool, code: Option<int>) returns (reply: StatusReply)
      modifies this
      ensures (Snapshot(), reply) == OnStatus(old(Snapshot()), waitFails, code)
    {
      if scriptProcess.None? {
        return NotRunning;
      }
      if waitFails {
        scriptProcess := None;
        return StatusError;
      }
      if scriptProcess.value in live {
        return StillRunning;
      }
      if lastExecution.Some? {
        lastExecution := Some(lastExecution.value.(ended := true, exitCode := code));
      }
      scriptProcess := None;
      return HasExited;
    }

    /** A shell ends by itself. */
    method ProcessExits(pid: nat)
      modifies this`live
      ensures Snapshot() == Next(old(Snapshot()), Step.ProcessExits(pid))
    {
      live := live - {pid};
    }

    /** restart_script: a stop whose outcome is ignored, then a start. */
    method RestartScript(env: Env, killed: bool, waited: Waited, waitFails: bool, spawn: Spawn)
      returns (reply: StartReply)
      modifies this
      ensures (Snapshot(), reply) ==
        OnStart(OnStop(old(Snapshot()), killed, waited).0, env, waitFails, spawn)
    {
      var _ := StopScript(killed, waited);
      reply := StartScript(env, waitFails, spawn);
    }
  }
}
