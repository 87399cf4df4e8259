/** How large a network a flood is sure to cover: exactly ttl + 2 nodes. */
module FloodLimit {
  import opened Prelude
  import opened Mesh
  import opened Network
  import opened RelayTermination
  import opened FloodCoverage

  ghost function Sent(net: Net, first: Step): (r: Net)
    requires WellFormed(net)
    ensures WellFormed(r) && |r.nodes| == |net.nodes|
  {
    ApplyWellFormed(net, first);
    Apply(net, first)
  }

  /** A broadcast on a connected graph, followed without prune or loss until none of it is in flight. */
  ghost predicate CompleteRun(net: Net, first: Step, steps: seq<Step>, g: Graph, b: Flood) {
    && Start(net, first, g, b) && Connected(g, b.origin)
    && FaithfulRun(Sent(net, first), steps, g, b) && Quiet(After(Sent(net, first), steps), b.id)
  }

  /** Whatever the connected graph of n nodes and the order of arrivals, the broadcast reaches everyone. */
  ghost predicate CoversAll(n: nat, ttl: nat) {
    forall net: Net, first: Step, steps: seq<Step>, g: Graph, b: Flood ::
      CompleteRun(net, first, steps, g, b) && |g| == n && b.ttl == ttl ==>
        Covered(After(Sent(net, first), steps), b)
  }

  ghost predicate Covered(net: Net, b: Flood) {
    forall u: NodeId :: u < |net.nodes| ==> Has(net, b.id, u)
  }

  // -------------------------------------------------------- every run can be ended

  /** The handling of the first flight, heard by the neighbours. */
  function HandleFirst(net: Net, g: Graph, b: Flood): Step
    requires net.flights != [] && net.flights[0].to < |g|
  {
    Arrive(0, Env(0, false, b.id + "'"), g[net.flights[0].to])
  }

  /** Any faithful run so far can be continued until nothing at all is in flight. */
  lemma {:induction false} Quieten(start: Net, steps: seq<Step>, g: Graph, b: Flood) returns (all: seq<Step>)
    requires WellFormed(start) && |start.nodes| == |g| && ValidGraph(g) && FaithfulRun(start, steps, g, b)
    ensures FaithfulRun(start, all, g, b) && After(start, all).flights == []
    decreases Measure(After(start, steps))
  {
    hide Apply, Measure, ValidGraph, Faithful;
    var net := After(start, steps);
    if net.flights == [] {
      return steps;
    }
    assert net.flights[0] in net.flights;
    var step := HandleFirst(net, g, b);
    FirstIsFaithful(net, g, b);
    var more := steps + [step];
    assert more[..|more| - 1] == steps;
    assert Enabled(net, step);
    ArrivalDecreases(net, 0, step.env, step.listeners);
    all := Quieten(start, more, g, b);
  }

  lemma FirstIsFaithful(net: Net, g: Graph, b: Flood)
    requires ValidGraph(g) && |net.nodes| == |g| && net.flights != [] && net.flights[0].to < |g|
    ensures Faithful(net, HandleFirst(net, g, b), g, b) && Enabled(net, HandleFirst(net, g, b))
  {
    assert |b.id + "'"| == |b.id| + 1;
  }

  lemma {:induction false} FaithfulIsLocal(net: Net, steps: seq<Step>, g: Graph, b: Flood)
    requires WellFormed(net) && FaithfulRun(net, steps, g, b)
    ensures LocalRun(net, steps, g, b)
  {
    hide After;
    if steps != [] {
      FaithfulIsLocal(net, steps[..|steps| - 1], g, b);
    }
  }

  // ------------------------------------------------------------------- the line

  /** The nodes 0..n-1 in a row, each heard by itself and its neighbours. */
  function Line(n: nat): Graph {
    seq(n, u requires 0 <= u < n => Neighbours(n, u))
  }

  function Neighbours(n: nat, u: nat): seq<NodeId> {
    (if u > 0 then [u - 1] else []) + [u] + (if u + 1 < n then [u + 1] else [])
  }

  function Row(k: nat): seq<NodeId> {
    seq(k, i requires 0 <= i < k => i)
  }

  lemma NeighboursAre(n: nat, u: nat)
    requires u < n
    ensures ValidListeners(n, Neighbours(n, u))
    ensures forall w: NodeId :: w in Neighbours(n, u) <==> w < n && (w == u || w == u + 1 || w + 1 == u)
  {
  }

  lemma LineConnected(n: nat)
    requires n >= 1
    ensures ValidGraph(Line(n)) && Connected(Line(n), 0)
  {
    hide Neighbours;
    forall u: nat | u < n
      ensures ValidListeners(n, Line(n)[u]) && u in Line(n)[u]
    {
      NeighboursAre(n, u);
    }
    forall u: NodeId | u < n
      ensures Reachable(Line(n), 0, u)
    {
      RowIsPath(n, u);
    }
  }

  lemma RowIsPath(n: nat, u: NodeId)
    requires u < n
    ensures Reachable(Line(n), 0, u)
  {
    hide Neighbours;
    var p := Row(u + 1);
    forall i | 0 <= i < |p| - 1
      ensures p[i + 1] in Line(n)[p[i]]
    {
      NeighboursAre(n, i);
    }
    assert IsPath(Line(n), p) && p[0] == 0 && p[|p| - 1] == u;
  }

  lemma LineDistances(n: nat, b: Flood)
    requires b.origin == 0
    ensures Distances(Line(n), u => u, b)
  {
    hide Neighbours;
    forall v: NodeId, w: NodeId | v < n && w in Line(n)[v]
      ensures w <= v + 1
    {
      NeighboursAre(n, v);
    }
  }

  function LineNet(n: nat): Net {
    Net(seq(n, u requires 0 <= u < n => NodeState(u, {}, {}, map[], map[], 0, None)), [])
  }

  function LineSend(n: nat, ttl: nat): Step
    requires n >= 1
  {
    Send(0, Message("b", Chat, Peer(0), Nobody, ttl, 0, 0, ""), Env(0, false, "ack"), Line(n)[0])
  }

  /** On a line of more than ttl + 2 nodes the last one is never reached. */
  lemma LineUncovered(n: nat, ttl: nat) returns (steps: seq<Step>)
    requires n > ttl + 2
    ensures CompleteRun(LineNet(n), LineSend(n, ttl), steps, Line(n), Flood("b", 0, Nobody, ttl))
    ensures !Covered(After(Sent(LineNet(n), LineSend(n, ttl)), steps), Flood("b", 0, Nobody, ttl))
  {
    hide Apply, After, FaithfulRun, LocalRun, Distances, Connected, ValidGraph, Neighbours, Has;
    var g, b, net, first := Line(n), Flood("b", 0, Nobody, ttl), LineNet(n), LineSend(n, ttl);
    LineConnected(n);
    LineDistances(n, b);
    assert FaithfulRun(Sent(net, first), [], g, b) by { NoSteps(Sent(net, first), g, b); }
    steps := Quieten(Sent(net, first), [], g, b);
    FaithfulIsLocal(Sent(net, first), steps, g, b);
    FloodReach(net, first, steps, g, u => u, b, n - 1);
  }

  lemma NoSteps(net: Net, g: Graph, b: Flood)
    requires WellFormed(net)
    ensures FaithfulRun(net, [], g, b)
  {
  }

  /** A flood is sure to cover the connected networks of n nodes exactly when n is at most ttl + 2. */
  lemma CoversExactly(n: nat, ttl: nat)
    ensures CoversAll(n, ttl) <==> n <= ttl + 2
  {
    hide Connected, FaithfulRun, Quiet, After, Apply, Has, Line, LineNet, LineSend;
    if n <= ttl + 2 {
      forall net: Net, first: Step, steps: seq<Step>, g: Graph, b: Flood
        | CompleteRun(net, first, steps, g, b) && |g| == n && b.ttl == ttl
        ensures Covered(After(Sent(net, first), steps), b)
      {
        RunCovers(net, first, steps, g, b);
      }
    } else if CoversAll(n, ttl) {
      var steps := LineUncovered(n, ttl);
      assert |Line(n)| == n by { LineLength(n); }
    }
  }

  lemma LineLength(n: nat)
    ensures |Line(n)| == n
  {
  }

  lemma RunCovers(net: Net, first: Step, steps: seq<Step>, g: Graph, b: Flood)
    requires CompleteRun(net, first, steps, g, b) && |g| <= b.ttl + 2
    ensures Covered(After(Sent(net, first), steps), b)
  {
    hide Connected, FaithfulRun, Quiet, Apply, Has;
    var end := After(Sent(net, first), steps);
    forall u: NodeId | u < |end.nodes|
      ensures Has(end, b.id, u)
    {
      FloodCovers(net, first, steps, g, b, u);
    }
  }
}
