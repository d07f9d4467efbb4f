/** Sliding latency windows on the node and the latency matrix on the server. Times are
    reals; rounding is not modelled, integer widths are. */
module Latency {
  import opened Collections
  import ClusterTypes

  const WINDOW_SIZE: nat := 100

  datatype Log = Log(opType: string, remoteRank: int, startTime: int, endTime: int, finished: bool)

  datatype Event = Logged(log: Log) | Restarted

  type Windows = map<int, seq<real>>

  /** int64 subtraction. */
  function Wrap64(x: int): int {
    (x + 0x8000_0000_0000_0000) % 0x1_0000_0000_0000_0000 - 0x8000_0000_0000_0000
  }

  /** The int32 conversion of a rank on its way to the server. */
  function Trunc32(x: int): int {
    (x + 0x8000_0000) % 0x1_0000_0000 - 0x8000_0000
  }

  predicate Fits32(x: int) {
    -0x8000_0000 <= x < 0x8000_0000
  }

  predicate Counts(log: Log) {
    log.finished && (log.opType == "send" || log.opType == "recv")
  }

  function LatencyOf(log: Log): real {
    Wrap64(log.endTime - log.startTime) as real / 1000000.0
  }

  function Slide(window: seq<real>, latency: real): seq<real> {
    var w := window + [latency];
    if |w| > WINDOW_SIZE then w[1..] else w
  }

  function Push(ws: Windows, rank: int, latency: real): Windows {
    ws[rank := Slide(if rank in ws then ws[rank] else [], latency)]
  }

  function Apply(ws: Windows, e: Event): Windows {
    match e
    case Restarted => map[]
    case Logged(log) => if Counts(log) then Push(ws, log.remoteRank, LatencyOf(log)) else ws
  }

  function Replay(events: seq<Event>): Windows {
    if events == [] then map[] else Apply(Replay(events[..|events| - 1]), events[|events| - 1])
  }

  /** The full history: every counted latency of the rank since the last restart. */
  function History(events: seq<Event>, rank: int): seq<real> {
    if events == [] then []
    else
      var before := History(events[..|events| - 1], rank);
      match events[|events| - 1]
      case Restarted => []
      case Logged(log) => if Counts(log) && log.remoteRank == rank then before + [LatencyOf(log)] else before
  }

  function LastOf(s: seq<real>, n: nat): seq<real> {
    if |s| <= n then s else s[|s| - n..]
  }

  /** A log counts when it is a finished send or receive; then it adds the milliseconds between its
      times, given in nanoseconds, to its remote rank's history. Anything else adds nothing. */
  lemma HistoryGrows(events: seq<Event>, log: Log, rank: int)
    requires -0x8000_0000_0000_0000 <= log.endTime - log.startTime < 0x8000_0000_0000_0000
    ensures History(events + [Logged(log)], rank) ==
      if log.finished && (log.opType == "send" || log.opType == "recv") && log.remoteRank == rank
      then History(events, rank) + [(log.endTime - log.startTime) as real / 1000000.0]
      else History(events, rank)
    ensures History(events + [Restarted], rank) == []
  {
    assert (events + [Logged(log)])[..|events|] == events;
    assert (events + [Restarted])[..|events|] == events;
  }

  lemma LastOfHundred(s: seq<real>)
    ensures |LastOf(s, 100)| == if |s| < 100 then |s| else 100
    ensures forall i :: 0 <= i < |LastOf(s, 100)| ==> LastOf(s, 100)[i] == s[|s| - |LastOf(s, 100)| + i]
  {
  }

  /** The window refines the history: it is its last hundred entries, at every moment of
      every sequence of logs and restarts. */
  lemma {:induction false} WindowIsRecentHistory(events: seq<Event>, rank: int)
    ensures rank in Replay(events) <==> History(events, rank) != []
    ensures rank in Replay(events) ==> Replay(events)[rank] == LastOf(History(events, rank), 100)
    decreases |events|
  {
    if events != [] {
      WindowIsRecentHistory(events[..|events| - 1], rank);
      var h := History(events[..|events| - 1], rank);
      forall x: real
        ensures LastOf(h + [x], WINDOW_SIZE) == Slide(LastOf(h, WINDOW_SIZE), x)
      {
      }
    }
  }

  function Sum(s: seq<real>): real {
    if s == [] then 0.0 else Sum(s[..|s| - 1]) + s[|s| - 1]
  }

  function Mean(s: seq<real>): real
    requires s != []
  {
    Sum(s) / |s| as real
  }

  lemma {:induction false} SumBetween(s: seq<real>, lo: real, hi: real)
    requires forall i :: 0 <= i < |s| ==> lo <= s[i] <= hi
    ensures |s| as real * lo <= Sum(s) <= |s| as real * hi
    decreases |s|
  {
    if s != [] {
      var n := |s| as real;
      SumBetween(s[..|s| - 1], lo, hi);
      assert n * lo == (n - 1.0) * lo + lo && n * hi == (n - 1.0) * hi + hi;
    }
  }

  /** Every entry weighs the same: the mean of a single entry is that entry, and one more entry
      moves the mean by its share. */
  lemma MeanShares(s: seq<real>, x: real)
    ensures Mean([x]) == x
    ensures s != [] ==> Mean(s + [x]) * (|s| + 1) as real == Mean(s) * |s| as real + x
  {
    assert [x][..|[x]| - 1] == [];
    assert Sum([x]) == 0.0 + x;
    assert (s + [x])[..|s|] == s;
    if s != [] {
      Undivided(Sum(s), |s| as real);
    }
    Undivided(Sum(s + [x]), (|s| + 1) as real);
  }

  lemma Undivided(sum: real, n: real)
    requires n > 0.0
    ensures sum / n * n == sum
  {
  }

  /** The sum of a window is that of any two stretches of it, so their order does not matter. */
  lemma {:induction false} SumSplits(s: seq<real>, t: seq<real>)
    ensures Sum(s + t) == Sum(s) + Sum(t)
    decreases |t|
  {
    if t == [] {
      assert s + t == s;
    } else {
      assert (s + t)[..|s + t| - 1] == s + t[..|t| - 1];
      SumSplits(s, t[..|t| - 1]);
    }
  }

  /** A mean lies between any bounds of its window, the minimum and the maximum included. */
  lemma MeanBetween(s: seq<real>, lo: real, hi: real)
    requires s != [] && forall i :: 0 <= i < |s| ==> lo <= s[i] <= hi
    ensures lo <= Mean(s) <= hi
  {
    SumBetween(s, lo, hi);
    DivideBounds(|s| as real, Sum(s), lo, hi);
  }

  lemma DivideBounds(n: real, sum: real, lo: real, hi: real)
    requires n > 0.0 && n * lo <= sum <= n * hi
    ensures lo <= sum / n <= hi
  {
    var q := sum / n;
    assert n * q == sum;
    Cancel(n, lo, q);
    Cancel(n, q, hi);
  }

  lemma Cancel(n: real, a: real, b: real)
    requires n > 0.0
    ensures n * a <= n * b ==> a <= b
  {
    assert n * (b - a) == n * b - n * a;
  }

  method Average(window: seq<real>) returns (mean: real)
    requires window != []
    ensures mean == Mean(window)
  {
    var sum := 0.0;
    for i := 0 to |window|
      invariant sum == Sum(window[..i])
    {
      assert window[..i + 1][..i] == window[..i];
      sum := sum + window[i];
    }
    assert window[..|window|] == window;
    mean := sum / |window| as real;
  }

  class LatencyWindows {
    var latencyWindow: Windows

    constructor ()
      ensures latencyWindow == map[]
    {
      latencyWindow := map[];
    }

    method UpdateLatencyWindow(remoteRank: int, latency: real) returns (mean: real)
      modifies this
      ensures latencyWindow == Push(old(latencyWindow), remoteRank, latency)
      ensures latencyWindow[remoteRank] != [] && mean == Mean(latencyWindow[remoteRank])
    {
      if remoteRank !in latencyWindow {
        latencyWindow := latencyWindow[remoteRank := []];
      }
      var window := latencyWindow[remoteRank] + [latency];
      if |window| > WINDOW_SIZE {
        window := window[1..];
      }
      latencyWindow := latencyWindow[remoteRank := window];
      mean := Average(window);
    }

    method HandleLogCCL(log: Log)
      modifies this
      ensures latencyWindow == Apply(old(latencyWindow), Logged(log))
    {
      if log.finished && (log.opType == "send" || log.opType == "recv") {
        var latency := Wrap64(log.endTime - log.startTime) as real / 1000000.0;
        var _ := UpdateLatencyWindow(log.remoteRank, latency);
      }
    }

    method Clear()
      modifies this
      ensures latencyWindow == map[] == Apply(old(latencyWindow), Restarted)
    {
      latencyWindow := map[];
    }

    /** The averages of a metrics report, keyed by the truncated rank. Ranks that collide
        after truncation overwrite each other in an arbitrary order. */
    method AverageLatencies() returns (avg: map<int, real>)
      ensures forall k :: k in avg ==>
        exists r :: r in latencyWindow && latencyWindow[r] != [] && Trunc32(r) == k && avg[k] == Mean(latencyWindow[r])
      ensures forall r :: r in latencyWindow && latencyWindow[r] != [] ==> Trunc32(r) in avg
    {
      avg := map[];
      var rest := latencyWindow.Keys;
      while rest != {}
        invariant rest <= latencyWindow.Keys
        invariant forall k :: k in avg ==>
          exists r :: r in latencyWindow && latencyWindow[r] != [] && Trunc32(r) == k && avg[k] == Mean(latencyWindow[r])
        invariant forall r :: r in latencyWindow && latencyWindow[r] != [] && r !in rest ==> Trunc32(r) in avg
        decreases |rest|
      {
        Inhabited(rest);
        var r: int :| r in rest;
        rest := rest - {r};
        if |latencyWindow[r]| > 0 {
          var mean := Average(latencyWindow[r]);
          avg := avg[Trunc32(r) := mean];
        }
      }
    }
  }

  lemma Trunc32Exact(x: int)
    ensures Trunc32(x) == x <==> Fits32(x)
  {
  }

  /** The value is the mean of the last hundred latencies of some logged rank that truncates
      to k. */
  ghost predicate MeanOfSome(events: seq<Event>, k: int, x: real) {
    exists r :: History(events, r) != [] && Trunc32(r) == k && x == Mean(LastOf(History(events, r), 100))
  }

  ghost predicate Logs(events: seq<Event>, k: int) {
    exists r :: History(events, r) != [] && Trunc32(r) == k
  }

  /** The key of a rank is the 32-bit number congruent to it. */
  lemma TruncatedRank(x: int)
    ensures Fits32(Trunc32(x)) && (x - Trunc32(x)) % 0x1_0000_0000 == 0
    ensures -0x8000_0000 <= x < 0x8000_0000 ==> Trunc32(x) == x
  {
  }

  /** What a report says, in terms of everything ever logged. */
  lemma ReportedMeans(events: seq<Event>, avg: map<int, real>)
    requires forall k :: k in avg ==>
      exists r :: r in Replay(events) && Replay(events)[r] != [] && Trunc32(r) == k && avg[k] == Mean(Replay(events)[r])
    requires forall r :: r in Replay(events) && Replay(events)[r] != [] ==> Trunc32(r) in avg
    ensures forall k :: k in avg <==> Logs(events, k)
    ensures forall k :: k in avg ==> MeanOfSome(events, k, avg[k])
  {
    forall k | k in avg
      ensures Logs(events, k) && MeanOfSome(events, k, avg[k])
    {
      var r :| r in Replay(events) && Replay(events)[r] != [] && Trunc32(r) == k && avg[k] == Mean(Replay(events)[r]);
      WindowIsRecentHistory(events, r);
    }
    forall k | Logs(events, k)
      ensures k in avg
    {
      var r :| History(events, r) != [] && Trunc32(r) == k;
      WindowIsRecentHistory(events, r);
    }
  }

  ghost predicate AllFit32(events: seq<Event>) {
    forall r :: History(events, r) != [] ==> Fits32(r)
  }

  /** When all logged ranks fit 32 bits, none shadows another: a report speaks of exactly the
      logged ranks, each with its own mean. */
  lemma ReportsExactly(events: seq<Event>, k: int, x: real)
    requires AllFit32(events)
    ensures Logs(events, k) <==> History(events, k) != []
    ensures MeanOfSome(events, k, x) ==>
      History(events, k) != [] && x == Mean(LastOf(History(events, k), 100))
  {
    forall r | History(events, r) != [] && Trunc32(r) == k
      ensures r == k
    {
      Trunc32Exact(r);
    }
    if History(events, k) != [] {
      Trunc32Exact(k);
    }
  }

  class LatencyMatrix {
    const size: nat
    const data: array2<real>

    ghost predicate Valid() {
      data.Length0 == size && data.Length1 == size
    }

    constructor (n: nat)
      ensures Valid() && size == n && fresh(data)
      ensures forall i, j :: 0 <= i < n && 0 <= j < n ==> data[i, j] == 0.0
    {
      size := n;
      data := new real[n, n]((i, j) => 0.0);
    }

    method UpdateLatency(from: int, to: int, latency: real)
      requires Valid()
      modifies data
      ensures forall i, j :: 0 <= i < size && 0 <= j < size ==>
        data[i, j] == if i == from && j == to then latency else old(data[i, j])
    {
      if 0 <= from < size && 0 <= to < size {
        data[from, to] := latency;
      }
    }

    /** Stores a report's averages in the reporting rank's row; every other cell, and every
        column not reported, keeps its value. */
    method ProcessMetrics(rank: int, avg: map<int, real>)
      requires Valid()
      modifies data
      ensures forall i, j :: 0 <= i < size && 0 <= j < size ==>
        data[i, j] == if i == rank && j in avg then avg[j] else old(data[i, j])
    {
      var rest := avg.Keys;
      while rest != {}
        invariant rest <= avg.Keys
        invariant forall i, j :: 0 <= i < size && 0 <= j < size ==>
          data[i, j] == if i == rank && j in avg && j !in rest then avg[j] else old(data[i, j])
        decreases |rest|
      {
        Inhabited(rest);
        var to: int :| to in rest;
        rest := rest - {to};
        UpdateLatency(rank, to, avg[to]);
      }
    }
  }

  datatype SendOutcome = NotSent | Unavailable | UnknownNode | Processed

  /** How far a report gets: the node's monitor must be Running and get its supervisor's metrics,
      the server must be Running and know the sender. */
  function Outcome(
    monitorRuns: bool, fetched: bool, phase: ClusterTypes.Phase, sender: Option<ClusterTypes.NodeStatus>)
    : SendOutcome
  {
    if !monitorRuns || !fetched then NotSent
    else if phase != ClusterTypes.Running then Unavailable
    else if sender.None? then UnknownNode
    else Processed
  }

  /** One metrics report end to end: logs and restarts since the beginning on the node, one
      row of the matrix on the server, and only an active sender's report is stored. */
  method Report(
    ghost events: seq<Event>, node: LatencyWindows, rank: int, monitorRuns: bool, fetched: bool,
    phase: ClusterTypes.Phase, sender: Option<ClusterTypes.NodeStatus>, matrix: LatencyMatrix)
    returns (outcome: SendOutcome)
    requires matrix.Valid() && node.latencyWindow == Replay(events)
    modifies matrix.data
    ensures outcome == Outcome(monitorRuns, fetched, phase, sender)
    ensures outcome == NotSent <==> !(monitorRuns && fetched)
    ensures outcome == Processed <==> monitorRuns && fetched && phase == ClusterTypes.Running && sender.Some?
    ensures outcome == Unavailable ==> phase != ClusterTypes.Running
    ensures forall i, j :: 0 <= i < matrix.size && 0 <= j < matrix.size ==>
      if outcome.Processed? && sender == Some(ClusterTypes.Active) && i == Trunc32(rank) && Logs(events, j)
      then MeanOfSome(events, j, matrix.data[i, j])
      else matrix.data[i, j] == old(matrix.data[i, j])
    ensures AllFit32(events) && outcome.Processed? && sender == Some(ClusterTypes.Active) ==>
      forall j :: 0 <= Trunc32(rank) < matrix.size && 0 <= j < matrix.size && History(events, j) != [] ==>
        matrix.data[Trunc32(rank), j] == Mean(LastOf(History(events, j), 100))
  {
    if !monitorRuns || !fetched {
      return NotSent;
    }
    var avg := node.AverageLatencies();
    ReportedMeans(events, avg);
    if phase != ClusterTypes.Running {
      return Unavailable;
    }
    if sender.None? {
      return UnknownNode;
    }
    if sender.value == ClusterTypes.Active {
      matrix.ProcessMetrics(Trunc32(rank), avg);
    }
    if AllFit32(events) {
      forall j | 0 <= j && History(events, j) != []
        ensures j in avg && avg[j] == Mean(LastOf(History(events, j), 100))
      {
        ReportsExactly(events, j, 0.0);
        ReportsExactly(events, j, avg[j]);
      }
    }
    return Processed;
  }
}
