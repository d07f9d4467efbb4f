/** When the server last heard of a node, read off the calls it served: the registrations it let
    in and the heartbeats that found a record. The health records say exactly this. */
module Hearing {
  import opened ClusterTypes
  import opened ClusterSpec
  import opened ClusterFacts
  import opened ClusterSafety
  import opened ClusterRuns
  import opened ClusterLaws

  predicate Hears(cfg: Config, s: System, step: Step, id: Name) {
    match step
    case DoHeartbeat(_, x) => x == id && id in s.v.health
    case DoRegister(_, x, _, _) => x == id && LetIn(cfg, s.v, id)
    case _ => false
  }

  /** The time of the latest such call of the run, or the given time when there is none. */
  function LastHeard(cfg: Config, s: System, steps: seq<Step>, id: Name, heard: int): int
    decreases |steps|
  {
    if steps == [] || !Enabled(cfg, s, steps[0]) then heard
    else
      LastHeard(cfg, After(cfg, s, steps[0]), steps[1..], id, if Hears(cfg, s, steps[0], id) then steps[0].now else heard)
  }

  lemma RegisterHears(cfg: Config, v: View, x: Name, url: Name, now: int, l: Launch, id: Name)
    requires Covered(v) && ValidRegistration(cfg, v, x, url, now, l)
    requires id in Register(cfg, v, x, url, now, l).health
    ensures var h := Register(cfg, v, x, url, now, l).health[id];
      if x == id && LetIn(cfg, v, id) then h.last == now else id in v.health && h == v.health[id]
  {
    if !LetIn(cfg, v, x) {
      TurnedAway(cfg, v, x, url, now, l);
    } else if x in v.nodes {
      ReconnectRenews(cfg, v, x, url, now, l);
    } else {
      AdmissionRecords(cfg, v, x, url, now, l);
    }
  }

  lemma LossHears(v: View, x: Name, id: Name)
    ensures id in ReportFailure(v, x).health ==>
      id in v.health && ReportFailure(v, x).health[id].last == v.health[id].last
    ensures id in Remove(v, x).health ==> id in v.health && Remove(v, x).health[id] == v.health[id]
  {
    ReportFrame(v, x);
    if id in v.nodes && (v.phase == Running || v.phase == Reconfiguring) {
      RemovalRemoves(v, id);
    }
  }

  /** A step that hears of a node sets its record to the step's time; no other moves it. */
  lemma StepHears(cfg: Config, s: System, step: Step, id: Name)
    requires Invariant(cfg, s) && Enabled(cfg, s, step) && id in NextView(cfg, s, step).health
    ensures if Hears(cfg, s, step, id) then NextView(cfg, s, step).health[id].last == step.now
            else id in s.v.health && NextView(cfg, s, step).health[id].last == s.v.health[id].last
  {
    match step
    case DoRegister(now, x, url, l) => RegisterHears(cfg, s.v, x, url, now, l, id);
    case DoStart(_, l) => StartFrame(cfg, s.v, l);
    case DoHeartbeat(now, x) => HeartbeatRenews(s.v, x, now);
    case DoReport(_, x) => LossHears(s.v, x, id);
    case DoRemove(_, x) => LossHears(s.v, x, id);
    case DoAttempt(_, made, r) => AttemptStepFrame(cfg, s.v, made, r);
    case DoTick(now) =>
    case DoCleanSessions(now) =>
    case DoSweep(now) => SweepDropsExactly(cfg, s.v, now, id);
  }

  lemma {:induction false} RecordsHearing(cfg: Config, s: System, steps: seq<Step>, t: System, id: Name, heard: int)
    requires Invariant(cfg, s) && Leads(cfg, s, steps, t)
    requires id in s.v.health ==> s.v.health[id].last == heard
    ensures id in t.v.health ==> t.v.health[id].last == LastHeard(cfg, s, steps, id, heard)
    decreases |steps|
  {
    if steps != [] {
      var u := After(cfg, s, steps[0]);
      StepInvariant(cfg, s, steps[0]);
      if id in u.v.health {
        StepHears(cfg, s, steps[0], id);
      }
      RecordsHearing(cfg, u, steps[1..], t, id, if Hears(cfg, s, steps[0], id) then steps[0].now else heard);
    }
  }

  /** In every state of every run, the record of a registered node carries the time of the last
      call that heard of it. */
  lemma RecordsSayLastHeard(cfg: Config, start: int, steps: seq<Step>, t: System, id: Name)
    requires cfg.Valid() && Leads(cfg, Boot(start), steps, t) && id in t.v.nodes
    ensures id in t.v.health && t.v.health[id].last == LastHeard(cfg, Boot(start), steps, id, start)
  {
    BootInvariant(cfg, start);
    RunInvariant(cfg, Boot(start), steps, t);
    RecordsHearing(cfg, Boot(start), steps, t, id, start);
  }
}
