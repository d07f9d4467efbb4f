/** The task distributor's two-way tables, and the task-creation endpoint as a sequence of
    lock-held sections between which anything else may run. */
module TaskDistribution {
  import opened Collections

  type NodeId = string

  datatype Task = Task(status: string, nodeId: Option<NodeId>)

  datatype Tables = Tables(
    tasks: map<int, Task>,
    assignments: map<NodeId, Option<int>>,
    status: map<NodeId, string>,
    counter: int)

  // ----- the lock-held sections -----

  function Drawn(t: Tables): Tables {
    t.(counter := t.counter + 1)
  }

  function Inserted(t: Tables, id: int): Tables {
    t.(tasks := t.tasks[id := Task("pending", None)])
  }

  function Registered(t: Tables, node: NodeId): Tables {
    t.(assignments := t.assignments[node := None], status := t.status[node := "available"])
  }

  /** The held task is looked up with a truthiness test, so a task numbered 0 would be missed. */
  function Unregistered(t: Tables, node: NodeId): Tables {
    var held := if node in t.assignments then t.assignments[node] else None;
    var tasks := if held.Some? && held.value != 0 && held.value in t.tasks
                 then t.tasks[held.value := Task("failed", None)] else t.tasks;
    t.(tasks := tasks, assignments := t.assignments - {node}, status := t.status - {node})
  }

  /** An unknown task raises KeyError before anything is written. */
  function AssignedTo(t: Tables, id: int, node: NodeId): Tables {
    if id !in t.tasks then t
    else t.(tasks := t.tasks[id := t.tasks[id].(nodeId := Some(node))],
            assignments := t.assignments[node := Some(id)],
            status := t.status[node := "busy"])
  }

  function StatusSet(t: Tables, id: int, st: string): Tables {
    if id in t.tasks then t.(tasks := t.tasks[id := t.tasks[id].(status := st)]) else t
  }

  predicate Available(t: Tables, node: NodeId) {
    node in t.status && t.status[node] == "available"
  }

  predicate PreviousAvailable(t: Tables, id: int) {
    id in t.tasks && t.tasks[id].nodeId.Some? && t.tasks[id].nodeId.value != ""
    && Available(t, t.tasks[id].nodeId.value)
  }

  predicate HoldsTask(t: Tables, node: NodeId, id: int) {
    node in t.assignments && t.assignments[node] == Some(id)
  }

  // ----- consistency -----

  /** Every held task exists and points back to its holder, a node is available exactly when
      it holds nothing, and task numbers are positive. */
  ghost predicate Consistent(t: Tables) {
    && t.counter >= 0
    && t.assignments.Keys == t.status.Keys
    && (forall n :: n in t.assignments ==> (t.assignments[n] == None <==> t.status[n] == "available"))
    && (forall n, id :: HoldsTask(t, n, id) ==> id in t.tasks && t.tasks[id].nodeId == Some(n))
    && forall id :: id in t.tasks ==> 1 <= id <= t.counter
  }

  lemma HeldOnce(t: Tables, n: NodeId, m: NodeId, id: int)
    requires Consistent(t) && HoldsTask(t, n, id) && HoldsTask(t, m, id)
    ensures n == m
  {
    assert t.tasks[id].nodeId == Some(n);
  }

  /** Unregistering a node fails the very task it holds, and no other. */
  lemma UnregisterFailsHeldTask(t: Tables, node: NodeId, id: int)
    requires Consistent(t) && id in t.tasks
    ensures Unregistered(t, node).tasks[id] ==
      if HoldsTask(t, node, id) then Task("failed", None) else t.tasks[id]
  {
    if node in t.assignments && t.assignments[node].Some? {
      assert HoldsTask(t, node, t.assignments[node].value);
    }
  }

  // ----- runs -----

  /** Where a create_task_endpoint call stands; calls are keyed by the task number they drew. */
  datatype Stage = Numbered | Created | Chosen(node: NodeId) | Assigned

  datatype System = System(t: Tables, calls: map<int, Stage>)

  datatype Step =
    | Draw
    | Insert(id: int)
    | Choose(id: int, node: NodeId)
    | GiveUp(id: int)
    | Assign(id: int)
    | Finish(id: int)
    | Register(node: NodeId)
    | Unregister(node: NodeId)
    | SetStatus(id: int, st: string)

  predicate At(s: System, id: int, stage: Stage) {
    id in s.calls && s.calls[id] == stage
  }

  /** A node is chosen while available, but may be gone or busy when the task is assigned. An
      empty node ID counts as no node. */
  predicate Enabled(s: System, step: Step) {
    match step
    case Insert(id) => At(s, id, Numbered)
    case Choose(id, node) => At(s, id, Created) && Available(s.t, node) && node != ""
    case GiveUp(id) => At(s, id, Created)
    case Assign(id) => id in s.calls && s.calls[id].Chosen?
    case Finish(id) => At(s, id, Assigned)
    case _ => true
  }

  function Next(s: System, step: Step): System
    requires Enabled(s, step)
  {
    match step
    case Draw => System(Drawn(s.t), s.calls[s.t.counter + 1 := Numbered])
    case Insert(id) => System(Inserted(s.t, id), s.calls[id := Created])
    case Choose(id, node) => s.(calls := s.calls[id := Chosen(node)])
    case GiveUp(id) => s.(calls := s.calls - {id})
    case Assign(id) => System(AssignedTo(s.t, id, s.calls[id].node), s.calls[id := Assigned])
    case Finish(id) => System(StatusSet(s.t, id, "running"), s.calls - {id})
    case Register(node) => s.(t := Registered(s.t, node))
    case Unregister(node) => s.(t := Unregistered(s.t, node))
    case SetStatus(id, st) => s.(t := StatusSet(s.t, id, st))
  }

  /** A call still before its assignment owns a task nobody holds. */
  ghost predicate Orderly(s: System) {
    && Consistent(s.t)
    && (forall id :: id in s.calls ==> 1 <= id <= s.t.counter)
    && (forall id :: At(s, id, Numbered) ==> id !in s.t.tasks)
    && forall id :: id in s.calls && (s.calls[id] == Created || s.calls[id].Chosen?) ==>
         id in s.t.tasks && s.t.tasks[id].nodeId == None
  }

  lemma AssignConsistent(t: Tables, id: int, node: NodeId)
    requires Consistent(t) && id in t.tasks && t.tasks[id].nodeId == None
    ensures Consistent(AssignedTo(t, id, node))
  {
    var u := AssignedTo(t, id, node);
    forall n, k | HoldsTask(u, n, k)
      ensures k in u.tasks && u.tasks[k].nodeId == Some(n)
    {
      if n != node {
        assert HoldsTask(t, n, k);
      }
    }
  }

  lemma UnregisterConsistent(t: Tables, node: NodeId)
    requires Consistent(t)
    ensures Consistent(Unregistered(t, node))
    ensures forall id :: id in t.tasks <==> id in Unregistered(t, node).tasks
    ensures forall id :: id in t.tasks && t.tasks[id].nodeId == None ==>
      Unregistered(t, node).tasks[id].nodeId == None
  {
    var u := Unregistered(t, node);
    forall n, k | HoldsTask(u, n, k)
      ensures k in u.tasks && u.tasks[k].nodeId == Some(n)
    {
      assert HoldsTask(t, n, k) && n != node;
      assert t.tasks[k].nodeId != Some(node);
      UnregisterFailsHeldTask(t, node, k);
    }
    if node in t.assignments && t.assignments[node].Some? {
      assert HoldsTask(t, node, t.assignments[node].value);
    }
  }

  lemma FrameConsistent(t: Tables, u: Tables)
    requires Consistent(t) && u.counter >= t.counter
    requires u.assignments.Keys == u.status.Keys
    requires forall n :: n in u.assignments ==> (u.assignments[n] == None <==> u.status[n] == "available")
    requires forall n, k :: HoldsTask(u, n, k) ==> HoldsTask(t, n, k)
    requires forall k :: k in t.tasks ==> k in u.tasks && u.tasks[k].nodeId == t.tasks[k].nodeId
    requires forall k :: k in u.tasks ==> 1 <= k <= u.counter
    ensures Consistent(u)
  {
  }

  /** The tables after a step. */
  lemma StepConsistent(s: System, step: Step)
    requires Orderly(s) && Enabled(s, step)
    ensures Consistent(Next(s, step).t)
  {
    var u := Next(s, step);
    match step
    case Assign(id) => AssignConsistent(s.t, id, s.calls[id].node);
    case Unregister(node) => UnregisterConsistent(s.t, node);
    case _ =>
      assert forall n, k :: HoldsTask(u.t, n, k) ==> HoldsTask(s.t, n, k);
      FrameConsistent(s.t, u.t);
  }

  lemma StepOrderly(s: System, step: Step)
    requires Orderly(s) && Enabled(s, step)
    ensures Orderly(Next(s, step))
  {
    StepConsistent(s, step);
    if step.Unregister? {
      UnregisterConsistent(s.t, step.node);
    }
  }

  // ----- what a step touches -----

  /** The task and the node a step is about. */
  predicate About(s: System, step: Step, id: int) {
    match step
    case Insert(k) => k == id
    case Assign(k) => k == id
    case Finish(k) => k == id
    case SetStatus(k, _) => k == id
    case Unregister(node) => node in s.t.assignments && s.t.assignments[node] == Some(id)
    case _ => false
  }

  predicate AboutNode(s: System, step: Step, node: NodeId) {
    match step
    case Assign(k) => k in s.calls && s.calls[k] == Chosen(node)
    case Register(n) => n == node
    case Unregister(n) => n == node
    case _ => false
  }

  /** Every other task and every other node stays as it is. */
  lemma StepTouchesOnly(s: System, step: Step)
    requires Orderly(s) && Enabled(s, step)
    ensures forall id :: !About(s, step, id) ==>
      (id in Next(s, step).t.tasks <==> id in s.t.tasks)
      && (id in s.t.tasks ==> Next(s, step).t.tasks[id] == s.t.tasks[id])
    ensures forall n :: !AboutNode(s, step, n) ==>
      (n in Next(s, step).t.assignments <==> n in s.t.assignments)
      && (n in s.t.assignments ==> Next(s, step).t.assignments[n] == s.t.assignments[n])
      && (n in Next(s, step).t.status <==> n in s.t.status)
      && (n in s.t.status ==> Next(s, step).t.status[n] == s.t.status[n])
  {
  }

  /** What each step does to the task and node it is about. */
  lemma StepDoes(s: System, step: Step)
    requires Orderly(s) && Enabled(s, step)
    ensures var t, u := s.t, Next(s, step).t;
      match step
      case Draw => u == t.(counter := t.counter + 1)
      case Insert(id) => id in u.tasks && u.tasks[id] == Task("pending", None)
      case Choose(_, _) => u == t
      case GiveUp(_) => u == t
      case Assign(id) =>
        && id in u.tasks && u.tasks[id] == Task(t.tasks[id].status, Some(s.calls[id].node))
        && HoldsTask(u, s.calls[id].node, id)
        && s.calls[id].node in u.status && u.status[s.calls[id].node] == "busy"
      case Finish(id) =>
        if id in t.tasks then id in u.tasks && u.tasks[id] == Task("running", t.tasks[id].nodeId) else u == t
      case SetStatus(id, st) =>
        if id in t.tasks then id in u.tasks && u.tasks[id] == Task(st, t.tasks[id].nodeId) else u == t
      case Register(n) => n in u.assignments && u.assignments[n] == None && n in u.status && u.status[n] == "available"
      case Unregister(n) => n !in u.assignments && n !in u.status
  {
  }

  const EMPTY := System(Tables(map[], map[], map[], 0), map[])

  predicate Leads(s: System, steps: seq<Step>, u: System)
    decreases |steps|
  {
    if steps == [] then s == u
    else Enabled(s, steps[0]) && Leads(Next(s, steps[0]), steps[1..], u)
  }

  /** However creations, registrations and unregistrations interleave, the tables stay
      consistent: in particular no task is held by two nodes. */
  lemma {:induction false} OrderlyOverEveryRun(s: System, steps: seq<Step>, u: System)
    requires Orderly(s) && Leads(s, steps, u)
    ensures Orderly(u)
    ensures forall n, m, id :: HoldsTask(u.t, n, id) && HoldsTask(u.t, m, id) ==> n == m
    decreases |steps|
  {
    if steps == [] {
      forall n, m, id | HoldsTask(u.t, n, id) && HoldsTask(u.t, m, id)
        ensures n == m
      {
        HeldOnce(u.t, n, m, id);
      }
    } else {
      StepOrderly(s, steps[0]);
      OrderlyOverEveryRun(Next(s, steps[0]), steps[1..], u);
    }
  }

  lemma OrderlyFromStart(steps: seq<Step>, u: System)
    requires Leads(EMPTY, steps, u)
    ensures Orderly(u)
  {
    OrderlyOverEveryRun(EMPTY, steps, u);
  }

  // ----- the other direction: a task that names a node is held by it -----

  ghost predicate Pointed(t: Tables) {
    forall id :: id in t.tasks && t.tasks[id].nodeId.Some? ==> HoldsTask(t, t.tasks[id].nodeId.value, id)
  }

  /** The node holds a task, and it is another one than this. */
  predicate HoldsAnother(t: Tables, node: NodeId, id: int) {
    node in t.assignments && t.assignments[node].Some? && t.assignments[node].value != id
  }

  /** The step takes a task out of the hands of a node that keeps being named by it. */
  predicate Overwrites(s: System, step: Step) {
    match step
    case Assign(id) => id in s.calls && s.calls[id].Chosen? && HoldsAnother(s.t, s.calls[id].node, id)
    case Register(node) => node in s.t.assignments && s.t.assignments[node].Some?
    case _ => false
  }

  lemma AssignPointed(t: Tables, id: int, node: NodeId)
    requires Consistent(t) && Pointed(t) && id in t.tasks && t.tasks[id].nodeId == None
    ensures Pointed(AssignedTo(t, id, node)) <==> !HoldsAnother(t, node, id)
  {
    var u := AssignedTo(t, id, node);
    if HoldsAnother(t, node, id) {
      var k := t.assignments[node].value;
      assert HoldsTask(t, node, k);
      assert u.tasks[k].nodeId == Some(node) && !HoldsTask(u, node, k);
    } else {
      forall k | k in u.tasks && u.tasks[k].nodeId.Some?
        ensures HoldsTask(u, u.tasks[k].nodeId.value, k)
      {
        if k != id {
          assert HoldsTask(t, t.tasks[k].nodeId.value, k);
        }
      }
    }
  }

  lemma RegisterPointed(t: Tables, node: NodeId)
    requires Consistent(t) && Pointed(t)
    ensures Pointed(Registered(t, node)) <==> !(node in t.assignments && t.assignments[node].Some?)
  {
    var u := Registered(t, node);
    if node in t.assignments && t.assignments[node].Some? {
      var k := t.assignments[node].value;
      assert HoldsTask(t, node, k);
      assert u.tasks[k].nodeId == Some(node) && !HoldsTask(u, node, k);
    } else {
      forall k | k in u.tasks && u.tasks[k].nodeId.Some?
        ensures HoldsTask(u, u.tasks[k].nodeId.value, k)
      {
        assert HoldsTask(t, t.tasks[k].nodeId.value, k);
      }
    }
  }

  lemma UnregisterPointed(t: Tables, node: NodeId)
    requires Consistent(t) && Pointed(t)
    ensures Pointed(Unregistered(t, node))
  {
    var u := Unregistered(t, node);
    forall k | k in u.tasks && u.tasks[k].nodeId.Some?
      ensures HoldsTask(u, u.tasks[k].nodeId.value, k)
    {
      UnregisterConsistent(t, node);
      UnregisterFailsHeldTask(t, node, k);
      assert HoldsTask(t, t.tasks[k].nodeId.value, k);
    }
  }

  /** Every task that names a node stays held by it, exactly until an assignment meets a node
      that has become busy since it was chosen, or a busy node registers again. */
  lemma PointedExactlyWhen(s: System, step: Step)
    requires Orderly(s) && Enabled(s, step) && Pointed(s.t)
    ensures Pointed(Next(s, step).t) <==> !Overwrites(s, step)
  {
    match step
    case Assign(id) => AssignPointed(s.t, id, s.calls[id].node);
    case Register(node) => RegisterPointed(s.t, node);
    case Unregister(node) => UnregisterPointed(s.t, node);
    case _ =>
      var u := Next(s, step).t;
      forall k | k in u.tasks && u.tasks[k].nodeId.Some?
        ensures HoldsTask(u, u.tasks[k].nodeId.value, k)
      {
        assert HoldsTask(s.t, s.t.tasks[k].nodeId.value, k);
      }
  }

  predicate NeverOverwrites(s: System, steps: seq<Step>)
    decreases |steps|
  {
    steps != [] ==>
      Enabled(s, steps[0]) && !Overwrites(s, steps[0]) && NeverOverwrites(Next(s, steps[0]), steps[1..])
  }

  lemma {:induction false} PointedOverEveryRun(s: System, steps: seq<Step>, u: System)
    requires Orderly(s) && Pointed(s.t) && Leads(s, steps, u) && NeverOverwrites(s, steps)
    ensures Pointed(u.t)
    decreases |steps|
  {
    if steps != [] {
      StepOrderly(s, steps[0]);
      PointedExactlyWhen(s, steps[0]);
      PointedOverEveryRun(Next(s, steps[0]), steps[1..], u);
    }
  }

  lemma {:induction false} RunExtends(s: System, steps: seq<Step>, u: System, step: Step)
    requires Leads(s, steps, u) && Enabled(u, step)
    ensures Leads(s, steps + [step], Next(u, step))
    decreases |steps|
  {
    if steps == [] {
      assert Leads(Next(u, step), [], Next(u, step));
    } else {
      RunExtends(Next(s, steps[0]), steps[1..], u, step);
      assert (steps + [step])[1..] == steps[1..] + [step];
    }
  }

  /** A creation up to its choice of a node. */
  lemma Creates(steps: seq<Step>, s: System, node: NodeId) returns (more: seq<Step>, u: System)
    requires Leads(EMPTY, steps, s) && Available(s.t, node) && node != ""
    ensures Leads(EMPTY, more, u)
    ensures var id := s.t.counter + 1;
      && u.calls == s.calls[id := Chosen(node)]
      && u.t == s.t.(counter := id, tasks := s.t.tasks[id := Task("pending", None)])
  {
    var id := s.t.counter + 1;
    var drawn := Next(s, Draw);
    RunExtends(EMPTY, steps, s, Draw);
    var inserted := Next(drawn, Insert(id));
    RunExtends(EMPTY, steps + [Draw], drawn, Insert(id));
    RunExtends(EMPTY, steps + [Draw] + [Insert(id)], inserted, Choose(id, node));
    more, u := steps + [Draw] + [Insert(id)] + [Choose(id, node)], Next(inserted, Choose(id, node));
    assert u.calls == s.calls[id := Chosen(node)];
  }

  lemma Gives(steps: seq<Step>, s: System, id: int) returns (more: seq<Step>, u: System)
    requires Leads(EMPTY, steps, s) && id in s.calls && s.calls[id].Chosen? && id in s.t.tasks
    ensures Leads(EMPTY, more, u)
    ensures u.t == StatusSet(AssignedTo(s.t, id, s.calls[id].node), id, "running") && u.calls == s.calls - {id}
  {
    RunExtends(EMPTY, steps, s, Assign(id));
    var given := Next(s, Assign(id));
    RunExtends(EMPTY, steps + [Assign(id)], given, Finish(id));
    more, u := steps + [Assign(id)] + [Finish(id)], Next(given, Finish(id));
  }

  /** It happens: two creations choose the only node before either is given to it, and the
      first task ends up running on a node that does not hold it. */
  lemma RaceLosesATask() returns (steps: seq<Step>, u: System)
    ensures Leads(EMPTY, steps, u)
    ensures 1 in u.t.tasks && u.t.tasks[1] == Task("running", Some("n")) && !HoldsTask(u.t, "n", 1)
  {
    RunExtends(EMPTY, [], EMPTY, Register("n"));
    steps, u := [] + [Register("n")], Next(EMPTY, Register("n"));
    steps, u := Creates(steps, u, "n");
    steps, u := Creates(steps, u, "n");
    steps, u := Gives(steps, u, 1);
    steps, u := Gives(steps, u, 2);
  }

  // ----- the object -----

  class TaskDistributor {
    var tasks: map<int, Task>
    var nodeAssignments: map<NodeId, Option<int>>
    var nodeStatus: map<NodeId, string>
    var taskCounter: int

    constructor ()
      ensures Snapshot() == EMPTY.t
    {
      tasks, nodeAssignments, nodeStatus, taskCounter := map[], map[], map[], 0;
    }

    function Snapshot(): Tables
      reads this
    {
      Tables(tasks, nodeAssignments, nodeStatus, taskCounter)
    }

    method GetNextTaskId() returns (id: int)
      modifies this`taskCounter
      ensures Snapshot() == Drawn(old(Snapshot())) && id == old(taskCounter) + 1
    {
      taskCounter := taskCounter + 1;
      return taskCounter;
    }

    /** The second section of create_task. */
    method CreateTask(id: int)
      modifies this`tasks
      ensures Snapshot() == Inserted(old(Snapshot()), id)
    {
      tasks := tasks[id := Task("pending", None)];
    }

    method RegisterNode(node: NodeId)
      modifies this`nodeAssignments, this`nodeStatus
      ensures Snapshot() == Registered(old(Snapshot()), node)
    {
      nodeAssignments := nodeAssignments[node := None];
      nodeStatus := nodeStatus[node := "available"];
    }

    method UnregisterNode(node: NodeId)
      requires node in nodeAssignments && nodeAssignments[node].Some? ==> nodeAssignments[node].value in tasks
      modifies this`tasks, this`nodeAssignments, this`nodeStatus
      ensures Snapshot() == Unregistered(old(Snapshot()), node)
    {
      if node in nodeAssignments {
        var held := nodeAssignments[node];
        if held.Some? && held.value != 0 {
          tasks := tasks[held.value := tasks[held.value].(status := "failed")];
          tasks := tasks[held.value := tasks[held.value].(nodeId := None)];
        }
        nodeAssignments := nodeAssignments - {node};
      }
      if node in nodeStatus {
        nodeStatus := nodeStatus - {node};
      }
    }

    /** Any available node may be drawn; the weights only make some likelier. */
    method GetAvailableNode() returns (node: Option<NodeId>)
      ensures node.None? <==> forall n :: !Available(Snapshot(), n)
      ensures node.Some? ==> Available(Snapshot(), node.value)
    {
      var candidates := set n | n in nodeStatus && nodeStatus[n] == "available";
      if candidates == {} {
        assert forall n :: Available(Snapshot(), n) ==> n in candidates;
        return None;
      }
      var n :| n in candidates;
      assert Available(Snapshot(), n);
      return Some(n);
    }

    /** A node the task was on before is preferred while it is available. */
    method GetNodeForTask(id: int) returns (node: Option<NodeId>)
      ensures node.Some? ==> id in tasks && Available(Snapshot(), node.value)
      ensures node.None? ==> id !in tasks || forall n :: !Available(Snapshot(), n)
      ensures id in tasks && PreviousAvailable(Snapshot(), id) ==> node == tasks[id].nodeId
    {
      if id !in tasks {
        return None;
      }
      var previous := tasks[id].nodeId;
      if previous.Some? && previous.value != "" {
        if previous.value in nodeStatus && nodeStatus[previous.value] == "available" {
          return previous;
        }
      }
      node := GetAvailableNode();
    }

    method AssignTaskToNode(id: int, node: NodeId) returns (ok: bool)
      modifies this`tasks, this`nodeAssignments, this`nodeStatus
      ensures ok <==> id in old(tasks)
      ensures Snapshot() == AssignedTo(old(Snapshot()), id, node)
    {
      if id !in tasks {
        return false;
      }
      tasks := tasks[id := tasks[id].(nodeId := Some(node))];
      nodeAssignments := nodeAssignments[node := Some(id)];
      nodeStatus := nodeStatus[node := "busy"];
      return true;
    }

    method UpdateTaskStatus(id: int, st: string)
      modifies this`tasks
      ensures Snapshot() == StatusSet(old(Snapshot()), id, st)
    {
      if id in tasks {
        tasks := tasks[id := tasks[id].(status := st)];
      }
    }

    /** create_task_endpoint when nothing runs between its sections: the new task is drawn,
        stored and either given to an available node or left pending. */
    method CreateTaskEndpoint() returns (id: int, node: Option<NodeId>)
      requires Consistent(Snapshot())
      modifies this
      ensures Consistent(Snapshot())
      ensures id == old(taskCounter) + 1 && id !in old(tasks) && id in tasks
      ensures node.Some? ==>
        && Available(old(Snapshot()), node.value) && HoldsTask(Snapshot(), node.value, id)
        && tasks[id] == Task("running", node)
      ensures node.None? ==> tasks == old(tasks)[id := Task("pending", None)] && nodeAssignments == old(nodeAssignments)
    {
      ghost var s := System(Snapshot(), map[]);
      id := GetNextTaskId();
      StepOrderly(s, Draw);
      s := Next(s, Draw);
      CreateTask(id);
      StepOrderly(s, Insert(id));
      s := Next(s, Insert(id));
      node := GetNodeForTask(id);
      if node.None? || node.value == "" {
        return id, None;
      }
      StepOrderly(s, Choose(id, node.value));
      s := Next(s, Choose(id, node.value));
      var _ := AssignTaskToNode(id, node.value);
      StepOrderly(s, Assign(id));
      s := Next(s, Assign(id));
      UpdateTaskStatus(id, "running");
      StepOrderly(s, Finish(id));
    }
  }
}
