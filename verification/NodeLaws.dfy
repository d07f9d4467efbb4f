/** What a node promises, in the terms of its fields alone: which commands are answered how, what
    is recorded of a shell, and what becomes of the goroutines and channels. States are written
    out and no law speaks through the guards of the specification. */
module NodeLaws {
  import opened Collections
  import opened Supervisor
  import opened MonitorNode

  // ----- the supervisor's records -----

  /** A request to start is turned away exactly when a tracked shell is alive and can be waited
      on; otherwise the shell tracked before is forgotten, and what was launched is recorded. */
  lemma LaunchRecorded(a: Agent, env: Env, waitFails: bool, spawn: Spawn)
    ensures var (b, reply) := OnStart(a, env, waitFails, spawn);
      if a.tracked.Some? && a.tracked.value in a.live && !waitFails then b == a && reply == AlreadyRunning
      else match spawn
        case SpawnFails => reply == StartError && b == a.(tracked := None)
        case ExitsAtOnce(code) =>
          && reply == Exited && b.tracked == None && b.live == a.live && b.spawned == a.spawned + 1
          && b.last == Some(Execution(a.spawned, env, true, code))
        case StaysUp =>
          && reply == Started && b.tracked == Some(a.spawned) && b.spawned == a.spawned + 1
          && b.live == a.live[a.spawned := env]
          && b.last == Some(Execution(a.spawned, env, false, None))
        case WaitUnknown =>
          && reply == StartError && b.tracked == None && b.last == a.last
          && b.live == a.live[a.spawned := env] && b.spawned == a.spawned + 1
  {
  }

  /** A stop of a tracked shell records its end, with the exit code when it was waited for. */
  lemma StopRecorded(a: Agent, waited: Waited)
    requires Supervised(a) && a.tracked.Some?
    ensures var (b, reply) := OnStop(a, true, waited);
      && b.tracked == None && b.live == map[] && b.spawned == a.spawned
      && match waited
         case Reaped(code) => reply == StopReply.Stopped && b.last == Some(a.last.value.(ended := true, exitCode := code))
         case TimedOut => reply == ForceStopped && b.last == Some(a.last.value.(ended := true))
         case WaitError => reply == StopError && b.last == a.last
  {
    var b := OnStop(a, true, waited).0;
    assert forall pid :: pid !in b.live;
  }

  lemma NothingToStop(a: Agent, killed: bool, waited: Waited)
    requires a.tracked == None
    ensures OnStop(a, killed, waited) == (a, NothingRunning)
  {
  }

  /** A status request notices that the tracked shell has exited, and records it. */
  lemma StatusRecorded(a: Agent, code: Option<int>)
    requires Supervised(a)
    ensures var (b, reply) := OnStatus(a, false, code);
      && (a.tracked == None ==> b == a && reply == NotRunning)
      && (a.live != map[] ==> b == a && reply == StillRunning)
      && (a.tracked.Some? && a.live == map[] ==>
            && reply == HasExited && b.tracked == None && b.live == map[] && b.spawned == a.spawned
            && b.last == Some(a.last.value.(ended := true, exitCode := code)))
  {
    if a.live.Keys == {} {
      assert a.live == map[];
    } else {
      var pid :| pid in a.live;
      assert a.tracked == Some(pid);
    }
  }

  // ----- which commands are refused -----

  lemma RestartRefusedExactlyWhen(st: MonitorState, a: Agent, env: Env, script: Script)
    ensures CarryOut(st, a, RestartCommand(env), script).2 == BadRequest <==>
      st != Running && st != Restarting && st != Standby
    ensures st != Running && st != Restarting && st != Standby ==>
      CarryOut(st, a, RestartCommand(env), script) == (st, a, BadRequest)
  {
  }

  lemma StartRefusedExactlyWhen(st: MonitorState, a: Agent, env: Env, script: Script)
    ensures CarryOut(st, a, StartCommand(env), script).2 == BadRequest <==> st != Standby
    ensures st != Standby ==> CarryOut(st, a, StartCommand(env), script) == (st, a, BadRequest)
  {
  }

  lemma StopRefused(st: MonitorState, a: Agent, script: Script)
    requires st != Running && st != Restarting
    ensures CarryOut(st, a, StopCommand, script) == (st, a, ServerError)
    ensures CarryOut(st, a, UnknownCommand, script) == (st, a, BadRequest)
  {
  }

  /** A stop succeeds exactly when request and answer get through, there is a tracked process, and
      waiting for it does not error. */
  lemma StopSucceedsExactlyWhen(a: Agent, c: StopCall)
    ensures CarryStop(a, c).1 <==> !c.lost && !c.answerLost && a.tracked.Some? && !c.waited.WaitError?
  {
  }

  lemma StopCommandExactlyWhen(st: MonitorState, a: Agent, script: Script)
    ensures CarryOut(st, a, StopCommand, script).2 == Ok <==>
      && (st == Running || st == Restarting) && a.tracked.Some?
      && !script.stop.lost && !script.stop.answerLost && !script.stop.waited.WaitError?
    ensures CarryOut(st, a, StopCommand, script).0 ==
      if CarryOut(st, a, StopCommand, script).2 == Ok then Standby else st
  {
  }

  /** A restart of the supervisor succeeds exactly when request and answer get through and the
      shell could be launched, whether or not it ended at once. */
  lemma PostRestartExactlyWhen(a: Agent, env: Env, c: RestartCall)
    requires Supervised(a)
    ensures CarryPostRestart(a, env, c).1 <==> !c.lost && !c.answerLost && !c.spawn.SpawnFails?
  {
  }

  // ----- the retry loop -----

  predicate Alive(a: Agent) {
    a.tracked.Some? && a.tracked.value in a.live
  }

  /** One try succeeds exactly when request and answer get through, no tracked shell is alive, and
      the new one stays up. It ends the loop with an error exactly when a live shell cannot be
      stopped. After anything else the next try follows. */
  lemma TryEnds(a: Agent, env: Env, t: Try)
    ensures CarryTry(a, env, t).1 == Some(Done) <==>
      !t.lost && !t.answerLost && !Alive(AfterExit(a, t.exits)) && t.spawn == StaysUp
    ensures CarryTry(a, env, t).1 == Some(AgentError) <==>
      && !t.lost && !t.answerLost && Alive(AfterExit(a, t.exits))
      && (t.stop.lost || t.stop.answerLost || t.stop.waited.WaitError?)
    ensures CarryTry(a, env, t).1 != Some(InvalidState)
  {
  }

  /** A shell that exits is no longer alive; nothing is recorded of it. */
  lemma ExitTakes(a: Agent, pid: nat)
    ensures AfterExit(a, Some(pid)) == a.(live := a.live - {pid}) && AfterExit(a, None) == a
  {
  }

  predicate Lost(t: Try) {
    t.lost && t.exits == None
  }

  /** Up to four lost requests are made up for by the next one. */
  lemma {:induction false} LostTriesAreRetried(a: Agent, env: Env, tries: seq<Try>, k: nat)
    requires Supervised(a) && a.live == map[] && k < |tries| && tries[k] == SMOOTH_TRY
    requires forall i :: 0 <= i < k ==> Lost(tries[i])
    ensures CarryStart(a, env, tries).1 == Done
    decreases k
  {
    if k > 0 {
      assert Lost(tries[0]);
      assert tries[1..][k - 1] == tries[k];
      LostTriesAreRetried(a, env, tries[1..], k - 1);
    }
  }

  /** And when every request is lost the loop gives up. */
  lemma {:induction false} AllLostGivesUp(a: Agent, env: Env, tries: seq<Try>)
    requires forall i :: 0 <= i < |tries| ==> Lost(tries[i])
    ensures CarryStart(a, env, tries) == (a, AgentError)
    decreases |tries|
  {
    if tries != [] {
      assert Lost(tries[0]);
      AllLostGivesUp(a, env, tries[1..]);
    }
  }

  lemma FiveTries(tries: Tries)
    ensures |tries| == 5
  {
  }

  const SMOOTH := Script(SMOOTH_STOP, SMOOTH_TRIES)

  /** Over a network that loses nothing a start succeeds; a shell that is still alive is stopped
      first. */
  lemma SmoothStart(a: Agent, env: Env)
    requires Supervised(a)
    ensures CarryStart(a, env, SMOOTH_TRIES).1 == Done
  {
    assert SMOOTH_TRIES[0] == SMOOTH_TRY;
    if TrackedLive(a) {
      var b := CarryTry(a, env, SMOOTH_TRY).0;
      CarryTrySupervised(a, env, SMOOTH_TRY);
      CarryStopSupervised(a, SMOOTH_STOP);
      assert SMOOTH_TRIES[1..][0] == SMOOTH_TRY;
      LostTriesAreRetried(b, env, SMOOTH_TRIES[1..], 0);
    } else {
      assert a.live == map[] by {
        assert forall pid :: pid !in a.live;
      }
      LostTriesAreRetried(a, env, SMOOTH_TRIES, 0);
    }
  }

  /** So a restart is accepted by exactly the monitors in Standby or Restarting, and those in
      Running that track a process. */
  lemma SmoothRestartExactlyWhen(st: MonitorState, a: Agent, env: Env)
    requires Supervised(a)
    ensures CarryOut(st, a, RestartCommand(env), SMOOTH).2 == Ok <==>
      st == Standby || st == Restarting || (st == Running && a.tracked.Some?)
  {
    SmoothStart(a, env);
    CarryStopSupervised(a, SMOOTH_STOP);
    SmoothStart(CarryStop(a, SMOOTH_STOP).0, env);
  }

  lemma SmoothStartExactlyWhen(st: MonitorState, a: Agent, env: Env)
    requires Supervised(a)
    ensures CarryOut(st, a, StartCommand(env), SMOOTH).2 == Ok <==> st == Standby
  {
    SmoothStart(a, env);
  }

  // ----- how Start ends -----

  /** The registration the loop decides on. */
  predicate Decides(replies: seq<RegisterReply>, k: nat, reply: RegisterReply) {
    k < 10 && k < |replies| && replies[k] == reply && forall i :: 0 <= i < k ==> replies[i] == Retryable
  }

  lemma {:induction false} AttemptsStop(replies: seq<RegisterReply>, j: nat)
    requires |replies| >= 10 && j <= 10 && forall i :: 0 <= i < j ==> replies[i] == Retryable
    ensures j <= Attempts(replies, j) <= 10
    ensures forall i :: 0 <= i < Attempts(replies, j) ==> replies[i] == Retryable
    ensures Attempts(replies, j) < 10 ==> replies[Attempts(replies, j)] != Retryable
    decreases 10 - j
  {
    if j < 10 && replies[j] == Retryable {
      AttemptsStop(replies, j + 1);
    }
  }

  /** A fatal answer before any acceptance leaves a new monitor as it was; an acceptance puts it in
      Standby only when it is the very first answer; everything else fails it. */
  lemma StartEnds(replies: seq<RegisterReply>)
    requires |replies| >= 10
    ensures AfterStart(NEW_MONITOR, replies).state == Standby <==> replies[0] == Accepted
    ensures AfterStart(NEW_MONITOR, replies).state == Initializing <==> exists k :: Decides(replies, k, Fatal)
    ensures AfterStart(NEW_MONITOR, replies).state == Failed <==>
      replies[0] != Accepted && !exists k :: Decides(replies, k, Fatal)
  {
    AttemptsStop(replies, 0);
    var k := Attempts(replies, 0);
    if k < 10 && replies[k] == Fatal {
      assert Decides(replies, k, Fatal);
    }
    forall j | Decides(replies, j, Fatal)
      ensures j == k
    {
    }
  }

  // ----- channels and goroutines -----

  /** Entering Running starts one metrics sender on the current stop channel. */
  lemma RunningSends(m: Mon)
    ensures SetState(m, Running).senders == m.senders + multiset{m.stopChan}
    ensures SetState(m, Running).stopChan == m.stopChan && SetState(m, Running).closes == m.closes
  {
  }

  /** Leaving Running for Standby, and every restart, closes the stop channel, so the senders
      waiting on it stop, and makes a new one. */
  lemma StopChannelCloses(m: Mon, st: MonitorState)
    requires Lifecycle(m) && (st == Restarting || (st == Standby && m.state == Running))
    ensures m.stopChan in SetState(m, st).closes && SetState(m, st).stopChan !in SetState(m, st).closes
    ensures SetState(m, st).senders == m.senders && SetState(m, st).stopChan != m.stopChan
  {
  }

  /** Failing stops the heartbeat by closing its channel, and tells the server once. */
  lemma FailingStopsHeartbeat(m: Mon)
    requires Lifecycle(m)
    ensures var n := SetState(m, Failed);
      && !n.ticker && n.done == None && n.notices == m.notices + 1
      && (m.done.Some? ==> m.done.value in n.closes)
      && n.stopChan == m.stopChan && n.senders == m.senders
  {
  }

  /** The other states keep a heartbeat that runs and start one that does not; they tell the
      server nothing. */
  lemma HeartbeatGoesOn(m: Mon, st: MonitorState)
    requires Lifecycle(m) && (st == Running || st == Standby || st == Restarting)
    ensures var n := SetState(m, st);
      && n.ticker && n.done.Some? && n.notices == m.notices
      && (m.ticker ==> n.done == m.done)
  {
  }

  // ----- what ends where -----

  /** The events that fail a monitor. */
  lemma FailsExactlyWhen(m: Mon, e: Event)
    requires Lifecycle(m) && m.state != Failed
    ensures OnEvent(m, e).state == Failed <==>
      match e
      case Startup(replies) => m.state == Initializing && AfterStart(m, replies).state == Failed
      case CommandStart(started) => m.state == Standby && !started
      case CommandStop(_) => false
      case CommandRestart(stopped, started) =>
        || ((m.state == Restarting || m.state == Standby) && !started)
        || (m.state == Running && !(stopped && started))
      case PostRestart(restarted) => !restarted
      case PostActivate(started) => m.state == Standby && !started
      case PostRemove => false
      case HeartbeatRefused => m.state == Standby || m.state == Running || m.state == Restarting
      case PollFailed => m.state == Running && m.senders != multiset{}
      case Shutdown => true
      case Ignored => false
  {
  }

  /** The events that bring a monitor to Running. */
  lemma RunsExactlyWhen(m: Mon, e: Event)
    requires Lifecycle(m) && m.state != Running
    ensures OnEvent(m, e).state == Running <==>
      match e
      case CommandStart(started) => m.state == Standby && started
      case CommandRestart(_, started) => (m.state == Restarting || m.state == Standby) && started
      case PostRestart(restarted) => m.state != Failed && restarted
      case PostActivate(started) => m.state == Standby && started
      case _ => false
  {
  }

  /** And those that send a monitor back to Standby. */
  lemma StandsByExactlyWhen(m: Mon, e: Event)
    requires Lifecycle(m) && m.state != Standby && !e.Startup?
    ensures OnEvent(m, e).state == Standby <==>
      match e
      case CommandStop(stopped) => (m.state == Running || m.state == Restarting) && stopped
      case PostRemove => m.state != Failed
      case _ => false
  {
  }
}
