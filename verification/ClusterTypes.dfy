/** The server's records: registry entries, health records, sessions, the
    configuration and the snapshot of all of them that the specification is
    written over. */
module ClusterTypes {
  /** Node IDs and node URLs are both plain strings; the server looks one kind up
      in a map keyed by the other, so they share a type here too. */
  type Name = string

  datatype NodeStatus = Active | Standby | NodeFailed

  datatype Phase = Initializing | Running | Reconfiguring | ShuttingDown | Failed

  datatype NodeState = NodeState(url: Name, status: NodeStatus, rank: int)

  datatype NodeHealth = NodeHealth(last: int, status: NodeStatus, failures: nat)

  datatype Session =
    Session(url: Name, status: NodeStatus, rank: int, lastSeen: int, reconnects: nat, connected: bool)

  /** standby may be negative: main only insists that expected - standby is positive. */
  datatype Config = Config(expected: int, standby: int, timeout: int) {
    function ActiveNodes(): int { expected - standby }

    function StandbyCap(): nat { if standby < 0 then 0 else standby }

    predicate Valid() { ActiveNodes() > 0 && timeout >= 2 }
  }

  type Nodes = map<Name, NodeState>

  function WithStatus(nodes: Nodes, st: NodeStatus): set<Name> {
    set id | id in nodes && nodes[id].status == st
  }

  function Times(entered: map<Phase, nat>, p: Phase): nat {
    if p in entered then entered[p] else 0
  }

  /** Everything the handlers read and write, as one value. */
  datatype View = View(
    nodes: Nodes,
    health: map<Name, NodeHealth>,
    sessions: map<Name, Session>,
    activeCtr: int,
    standbyCtr: int,
    failedCtr: int,
    phase: Phase,
    entered: map<Phase, nat>)
  {
    function Actives(): set<Name> { WithStatus(nodes, Active) }

    function Standbys(): set<Name> { WithStatus(nodes, Standby) }
  }

  /** One notification round of a reconfiguration: the standbys promoted, the order
      sort.Slice produced, and the active nodes whose notification failed. */
  datatype Round = Round(promoted: seq<Name>, order: seq<Name>, rejecting: set<Name>)

  /** One start round: the order by URL and the nodes whose start command failed. */
  datatype Launch = Launch(order: seq<Name>, rejecting: set<Name>)
}
