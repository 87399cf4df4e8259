/** Flooding over a fixed neighbour graph: whom a broadcast, or an addressed message in a network without
    budgets, must reach, and whom it cannot. */
module FloodCoverage {
  import opened Prelude
  import opened Routing
  import opened Mesh
  import opened Network
  import opened CopyPotential
  import opened RelayPaths

  /** The neighbours that hear each node's publishes, itself among them. */
  type Graph = seq<seq<NodeId>>

  predicate ValidGraph(g: Graph) {
    forall u :: 0 <= u < |g| ==> ValidListeners(|g|, g[u]) && u in g[u]
  }

  predicate IsPath(g: Graph, p: seq<NodeId>) {
    && p != [] && p[0] < |g|
    && forall i :: 0 <= i < |p| - 1 ==> p[i] < |g| && p[i + 1] in g[p[i]]
  }

  ghost predicate Reachable(g: Graph, origin: NodeId, u: NodeId) {
    exists p :: IsPath(g, p) && p[0] == origin && p[|p| - 1] == u
  }

  /** Every node can be reached from the origin. */
  ghost predicate Connected(g: Graph, origin: NodeId) {
    forall u: NodeId :: u < |g| ==> Reachable(g, origin, u)
  }

  /** The message followed: its id, who sent it, to whom, and the time to live it started with. */
  datatype Flood = Flood(id: MsgId, origin: NodeId, recipient: Party, ttl: nat)

  /** Everybody floods it: it is a broadcast, or nobody has a budget. */
  predicate Flooded(net: Net, b: Flood) {
    b.recipient == Nobody || forall u :: 0 <= u < |net.nodes| ==> net.nodes[u].budget <= 0
  }

  predicate OnItsWay(net: Net, id: MsgId, w: NodeId) {
    exists i :: 0 <= i < |net.flights| && net.flights[i].msg.id == id && net.flights[i].to == w
  }

  predicate Has(net: Net, id: MsgId, w: NodeId) {
    w < |net.nodes| && id in net.nodes[w].seen
  }

  function Reached(net: Net, b: Flood): set<NodeId> {
    set u: NodeId | u < |net.nodes| && (u == b.origin || b.id in net.nodes[u].seen)
  }

  /** A copy of the message is as it was sent, some hops on. */
  predicate CopyOf(m: Message, b: Flood) {
    && m.recipient == b.recipient && m.sender == Peer(b.origin)
    && m.ttl >= 0 && m.hopCount >= 0 && m.ttl + m.hopCount == b.ttl
  }

  /** Whoever has relayed the broadcast has served each of its neighbours; and a copy has taken fewer hops
      than there are nodes reached, because dedup makes the path of first arrivals simple. */
  ghost predicate Covering(net: Net, g: Graph, b: Flood) {
    && WellFormed(net) && |net.nodes| == |g| && ValidGraph(g) && b.origin < |g| && Flooded(net, b)
    && (forall i :: 0 <= i < |net.flights| && net.flights[i].msg.id == b.id ==>
          CopyOf(net.flights[i].msg, b) && net.flights[i].msg.hopCount < |Reached(net, b)|)
    && (forall v, w :: v in Reached(net, b) && w in g[v] ==> Has(net, b.id, w) || OnItsWay(net, b.id, w))
  }

  /** No dedup prune, no loss, nobody else uses the id, and publishes reach exactly the neighbours. */
  ghost predicate Faithful(net: Net, step: Step, g: Graph, b: Flood) {
    match step
    case Send(_, m, _, _) => m.id != b.id
    case Arrive(index, env, listeners) =>
      env.freshId != b.id && index < |net.flights| && net.flights[index].to < |g| && listeners == g[net.flights[index].to]
    case PruneSeen(_) => false
    case PruneSprayed(_) => true
    case Connect(_, _) => true
    case Lose(_) => false
  }

  ghost predicate FaithfulRun(net: Net, steps: seq<Step>, g: Graph, b: Flood)
    requires WellFormed(net)
  {
    steps == [] ||
    var k := |steps| - 1;
    FaithfulRun(net, steps[..k], g, b) && Faithful(After(net, steps[..k]), steps[k], g, b)
  }

  // ------------------------------------------------------- one arrival at a time

  /** A node that floods passes a message from somebody else on, once and as it is but for the hop, while
      it has hops left; and says so. */
  lemma FloodingRelays(s: NodeState, m: Message, from: Option<NodeId>, now: int)
    requires m.recipient == Nobody || s.budget <= 0
    ensures
      var e := RelayEffect(s, m, from, now);
      && e.state == s
      && if m.sender == Peer(s.me) then e.outs == [] && e.events == [] && e.msg == m
         else if m.ttl <= 0 then
           && e.outs == [] && e.msg == m
           && e.events == [RelayEvent(m.id, m.typ, Dropped, from, m.hopCount, m.ttl, m.copiesMade)]
         else
           && e.msg == m.(ttl := m.ttl - 1, hopCount := m.hopCount + 1)
           && e.outs == [Publish(m.(ttl := m.ttl - 1, hopCount := m.hopCount + 1))]
           && e.events == [RelayEvent(m.id, m.typ, Forwarded, from, m.hopCount + 1, m.ttl - 1, m.copiesMade)]
  {
  }

  /** What a node that floods sends on when a message first arrives, before any receipt. */
  function Onward(s: NodeState, m: Message): seq<Out> {
    if m.sender == Peer(s.me) || m.ttl <= 0 then [] else [Publish(DecrementTTL(m))]
  }

  ghost function Receipts(s: NodeState, m: Message, from: Option<NodeId>, env: Env): seq<Out> {
    AckEffect(Noted(s, m, from, env.now), m, env).outs
  }

  lemma ArrivalOnward(s: NodeState, m: Message, from: Option<NodeId>, env: Env)
    requires m.recipient == Nobody || s.budget <= 0
    ensures DeliverEffect(s, m, from, env).outs ==
              if m.id in s.seen then [] else Onward(s, m) + Receipts(s, m, from, env)
  {
    hide Noted, RelayEffect, AckEffect;
    NotedBudget(s, m, from, env.now);
    FloodingRelays(Noted(s, m, from, env.now), m, from, env.now);
  }

  /** What a broadcast's arrival sends on. */
  lemma BroadcastOuts(s: NodeState, m: Message, from: Option<NodeId>, env: Env)
    requires m.recipient == Nobody
    ensures DeliverEffect(s, m, from, env).outs ==
              if m.id in s.seen || Own(s, m) || m.ttl <= 0 then [] else [Publish(DecrementTTL(m))]
  {
    hide Noted, DeliverEffect;
    ArrivalOnward(s, m, from, env);
  }

  lemma ReceiptFlights(s: NodeState, m: Message, from: Option<NodeId>, env: Env, id: MsgId,
                       at: NodeId, listeners: seq<NodeId>, n: nat)
    requires env.freshId != id && ValidListeners(n, listeners)
    ensures forall fl :: fl in Spread(Receipts(s, m, from, env), at, listeners, n) ==> fl.msg.id != id
  {
    hide Noted, AckEffect, Spread;
    var noted := Noted(s, m, from, env.now);
    AckOuts(noted, m, env);
    OtherFlights(Receipts(s, m, from, env), AckFor(noted, m, env), id, at, listeners, n);
  }

  lemma FloodedKept(net: Net, step: Step, b: Flood)
    requires WellFormed(net) && Flooded(net, b)
    ensures Flooded(Apply(net, step), b)
  {
    hide SendEffect, DeliverEffect, Noted, Spread;
    if Enabled(net, step) {
      match step
      case Send(at, m, env, _) => SendOuts(net.nodes[at], m, env);
      case Arrive(index, env, _) =>
        var fl := net.flights[index];
        StateAfterArrival(net.nodes[fl.to], fl.msg, Some(fl.from), env);
        NotedBudget(net.nodes[fl.to], fl.msg, Some(fl.from), env.now);
      case PruneSeen(_) =>
      case PruneSprayed(_) =>
      case Connect(_, _) =>
      case Lose(_) =>
    }
  }

  lemma PublishFlights(m: Message, at: NodeId, listeners: seq<NodeId>, n: nat)
    ensures
      var flights := Spread([Publish(m)], at, listeners, n);
      && |flights| == |listeners|
      && (forall i :: 0 <= i < |listeners| ==> flights[i] == Flight(m, at, listeners[i]))
      && (forall fl :: fl in flights ==> fl.msg == m && fl.from == at && fl.to in listeners)
  {
    assert [Publish(m)][..0] == [];
  }

  lemma OtherFlights(outs: seq<Out>, m: Message, id: MsgId, at: NodeId, listeners: seq<NodeId>, n: nat)
    requires OneHop(outs, m) && m.id != id && ValidListeners(n, listeners)
    ensures forall fl :: fl in Spread(outs, at, listeners, n) ==> fl.msg.id != id
  {
    hide Spread;
    SpreadMembers(outs, at, listeners, n);
    forall fl | fl in Spread(outs, at, listeners, n)
      ensures fl.msg.id != id
    {
      var i :| 0 <= i < |outs| && fl.msg == outs[i].msg;
      assert outs[i] in outs;
    }
  }

  lemma OtherArrivalFlights(s: NodeState, m: Message, from: Option<NodeId>, env: Env, id: MsgId,
                            at: NodeId, listeners: seq<NodeId>, n: nat)
    requires m.id != id && env.freshId != id && ValidListeners(n, listeners)
    ensures forall fl :: fl in Spread(DeliverEffect(s, m, from, env).outs, at, listeners, n) ==> fl.msg.id != id
  {
    hide Spread, SendEffect, RelayEffect, AckEffect, Noted;
    if m.id in s.seen {
      OtherFlights([], m, id, at, listeners, n);
    } else {
      var relay := RelayEffect(Noted(s, m, from, env.now), m, from, env.now);
      var ack := AckEffect(relay.state, m, env);
      RelayOuts(Noted(s, m, from, env.now), m, from, env.now);
      AckOuts(relay.state, m, env);
      SpreadAppend(relay.outs, ack.outs, at, listeners, n);
      OtherFlights(relay.outs, DecrementTTL(m), id, at, listeners, n);
      OtherFlights(ack.outs, AckFor(relay.state, m, env), id, at, listeners, n);
    }
  }

  /** Adding flights of other messages, with the same nodes having seen the broadcast, keeps everything. */
  lemma CoveringGrows(net: Net, after: Net, more: seq<Flight>, g: Graph, b: Flood)
    requires Covering(net, g, b) && WellFormed(after) && |after.nodes| == |net.nodes| && Flooded(after, b)
    requires forall u :: 0 <= u < |net.nodes| ==> (b.id in after.nodes[u].seen <==> b.id in net.nodes[u].seen)
    requires after.flights == net.flights + more
    requires forall fl :: fl in more ==> fl.msg.id != b.id
    ensures Covering(after, g, b)
  {
    assert Reached(after, b) == Reached(net, b);
    forall i | |net.flights| <= i < |after.flights|
      ensures after.flights[i].msg.id != b.id
    {
      assert after.flights[i] == more[i - |net.flights|];
    }
    forall w | OnItsWay(net, b.id, w)
      ensures OnItsWay(after, b.id, w)
    {
      var i :| 0 <= i < |net.flights| && net.flights[i].msg.id == b.id && net.flights[i].to == w;
      assert after.flights[i] == net.flights[i];
    }
  }

  /** Handling one arrival of another message. */
  lemma CoveringOther(net: Net, index: nat, env: Env, listeners: seq<NodeId>, g: Graph, b: Flood)
    requires Covering(net, g, b) && Faithful(net, Arrive(index, env, listeners), g, b)
    requires net.flights[index].msg.id != b.id
    ensures Covering(Apply(net, Arrive(index, env, listeners)), g, b)
  {
    hide Spread, DeliverEffect, Reached, Covering, Flooded;
    var fl, step := net.flights[index], Arrive(index, env, listeners);
    CoveringShape(net, g, b);
    FloodedKept(net, step, b);
    assert fl in net.flights;
    var rest := Net(net.nodes, Without(net.flights, index));
    CoveringDrops(net, index, g, b);
    ApplyWellFormed(net, step);
    SeenAfterArrival(net.nodes[fl.to], fl.msg, Some(fl.from), env);
    OtherArrivalFlights(net.nodes[fl.to], fl.msg, Some(fl.from), env, b.id, fl.to, listeners, |g|);
    CoveringGrows(rest, Apply(net, step),
                  Spread(DeliverEffect(net.nodes[fl.to], fl.msg, Some(fl.from), env).outs, fl.to, listeners, |g|), g, b);
  }

  lemma CoveringShape(net: Net, g: Graph, b: Flood)
    requires Covering(net, g, b)
    ensures WellFormed(net) && ValidGraph(g) && |net.nodes| == |g| && b.origin < |g| && Flooded(net, b)
  {
  }

  lemma WithoutMembers<T>(s: seq<T>, index: nat)
    requires index < |s|
    ensures forall i :: 0 <= i < |s| - 1 ==> Without(s, index)[i] == s[if i < index then i else i + 1]
    ensures |Without(s, index)| == |s| - 1
    ensures forall i :: 0 <= i < |s| && i != index ==> s[i] == Without(s, index)[if i < index then i else i - 1]
  {
  }

  /** Removing a flight that is not the broadcast's, or that goes to a node that already has it. */
  lemma CoveringDrops(net: Net, index: nat, g: Graph, b: Flood)
    requires Covering(net, g, b) && index < |net.flights|
    requires net.flights[index].msg.id == b.id ==> Has(net, b.id, net.flights[index].to)
    ensures Covering(Net(net.nodes, Without(net.flights, index)), g, b)
  {
    hide OnItsWay;
    var after := Net(net.nodes, Without(net.flights, index));
    WithoutMembers(net.flights, index);
    OthersOnTheirWay(net, after, index, b.id);
    assert Reached(after, b) == Reached(net, b);
  }

  /** The network once a node has noted the broadcast. */
  ghost predicate Accepts(net: Net, after: Net, index: nat, b: Flood)
    requires index < |net.flights|
  {
    var to := net.flights[index].to;
    && |after.nodes| == |net.nodes| && Flooded(after, b)
    && forall u :: 0 <= u < |net.nodes| ==> (b.id in after.nodes[u].seen <==> u == to || b.id in net.nodes[u].seen)
  }

  /** A first arrival at a node that relays: every neighbour gets a copy. */
  lemma CoveringRelays(net: Net, after: Net, index: nat, g: Graph, b: Flood)
    requires Covering(net, g, b) && index < |net.flights| && WellFormed(after) && Accepts(net, after, index, b)
    requires net.flights[index].msg.id == b.id && net.flights[index].to !in Reached(net, b)
    requires net.flights[index].msg.ttl > 0
    requires
      var v, next := net.flights[index].to, DecrementTTL(net.flights[index].msg);
      var sent := seq(|g[v]|, i requires 0 <= i < |g[v]| => Flight(next, v, g[v][i]));
      after.flights == Without(net.flights, index) + sent
    ensures Covering(after, g, b)
  {
    hide OnItsWay;
    var v, next, rest := net.flights[index].to, DecrementTTL(net.flights[index].msg), Without(net.flights, index);
    WithoutMembers(net.flights, index);
    OthersOnTheirWay(net, after, index, b.id);
    assert Reached(after, b) == Reached(net, b) + {v};
    NeighboursServed(after, rest, next, v, g[v]);
  }

  lemma NeighboursServed(after: Net, rest: seq<Flight>, m: Message, v: NodeId, neighbours: seq<NodeId>)
    requires after.flights ==
             rest + seq(|neighbours|, i requires 0 <= i < |neighbours| => Flight(m, v, neighbours[i]))
    ensures forall w :: w in neighbours ==> OnItsWay(after, m.id, w)
  {
    forall w | w in neighbours
      ensures OnItsWay(after, m.id, w)
    {
      var i :| 0 <= i < |neighbours| && neighbours[i] == w;
      assert after.flights[|rest| + i] == Flight(m, v, w);
    }
  }

  /** Copies to other nodes stay on their way. */
  lemma OthersOnTheirWay(net: Net, after: Net, index: nat, id: MsgId)
    requires index < |net.flights| && Without(net.flights, index) <= after.flights
    ensures forall w :: OnItsWay(net, id, w) && (w != net.flights[index].to || net.flights[index].msg.id != id) ==>
              OnItsWay(after, id, w)
  {
    WithoutMembers(net.flights, index);
    var rest := Without(net.flights, index);
    hide Without;
    assert forall k :: 0 <= k < |rest| ==> after.flights[k] == rest[k];
    forall w | OnItsWay(net, id, w) && (w != net.flights[index].to || net.flights[index].msg.id != id)
      ensures OnItsWay(after, id, w)
    {
      var i :| 0 <= i < |net.flights| && net.flights[i].msg.id == id && net.flights[i].to == w;
      var k := if i < index then i else i - 1;
      assert i != index && rest[k] == net.flights[i] && after.flights[k] == rest[k];
    }
  }

  /** The broadcast comes back to its origin for the first time: noted, and not passed on. */
  lemma CoveringComesBack(net: Net, after: Net, index: nat, g: Graph, b: Flood)
    requires Covering(net, g, b) && index < |net.flights| && WellFormed(after) && Accepts(net, after, index, b)
    requires net.flights[index].msg.id == b.id && after.flights == Without(net.flights, index)
    requires net.flights[index].to == b.origin
    ensures Covering(after, g, b)
  {
    hide OnItsWay;
    WithoutMembers(net.flights, index);
    OthersOnTheirWay(net, after, index, b.id);
    assert Reached(after, b) == Reached(net, b);
  }

  /** The last node to be reached need not pass anything on. */
  lemma CoveringEnds(net: Net, after: Net, index: nat, g: Graph, b: Flood)
    requires Covering(net, g, b) && index < |net.flights| && WellFormed(after) && Accepts(net, after, index, b)
    requires net.flights[index].msg.id == b.id && after.flights == Without(net.flights, index)
    requires net.flights[index].to !in Reached(net, b) && |Reached(net, b)| >= |g| - 1
    ensures Covering(after, g, b)
  {
    hide OnItsWay;
    WithoutMembers(net.flights, index);
    OthersOnTheirWay(net, after, index, b.id);
    assert Reached(after, b) == Reached(net, b) + {net.flights[index].to};
    EveryoneReached(after, g, b);
    assert b.origin in Reached(net, b) && b.origin in g[b.origin];
    forall w: NodeId | w < |g|
      ensures Has(after, b.id, w) || OnItsWay(after, b.id, w)
    {
      assert w in Reached(after, b);
    }
  }

  lemma EveryoneReached(net: Net, g: Graph, b: Flood)
    requires |net.nodes| == |g| <= |Reached(net, b)|
    ensures forall w: NodeId :: w < |g| ==> w in Reached(net, b)
  {
    CardinalityMonotone(Reached(net, b), Range(|g|));
  }

  /** The network once the arriving copy has been relayed, but no receipt sent. */
  ghost function Relayed(net: Net, after: Net, index: nat, listeners: seq<NodeId>): Net
    requires index < |net.flights| && net.flights[index].to < |net.nodes|
  {
    var fl := net.flights[index];
    Net(after.nodes, Without(net.flights, index)
                     + Spread(Onward(net.nodes[fl.to], fl.msg), fl.to, listeners, |net.nodes|))
  }

  /** A first arrival: the copy goes on, then perhaps a receipt, which is another message. */
  lemma CoveringFirst(net: Net, index: nat, env: Env, listeners: seq<NodeId>, g: Graph, b: Flood)
    requires WellFormed(net) && Covering(net, g, b) && index < |net.flights| && net.flights[index].to < |net.nodes|
    requires Faithful(net, Arrive(index, env, listeners), g, b)
    requires net.flights[index].msg.id == b.id && b.id !in net.nodes[net.flights[index].to].seen
    requires |g| <= b.ttl + 2 && Covering(Relayed(net, Apply(net, Arrive(index, env, listeners)), index, listeners), g, b)
    ensures Covering(Apply(net, Arrive(index, env, listeners)), g, b)
  {
    hide Spread, DeliverEffect, Covering, Receipts, Onward, Flooded;
    var fl, step := net.flights[index], Arrive(index, env, listeners);
    var m, s, from := fl.msg, net.nodes[fl.to], Some(fl.from);
    var after := Apply(net, step);
    CoveringShape(net, g, b);
    ApplyWellFormed(net, step);
    FloodedKept(net, step, b);
    assert m.recipient == Nobody || s.budget <= 0 by { CopyFloods(net, index, g, b); }
    ArrivalOnward(s, m, from, env);
    var more := Spread(Receipts(s, m, from, env), fl.to, listeners, |g|);
    SpreadAppend(Onward(s, m), Receipts(s, m, from, env), fl.to, listeners, |g|);
    ReceiptFlights(s, m, from, env, b.id, fl.to, listeners, |g|);
    var mid := Relayed(net, after, index, listeners);
    assert after.flights == mid.flights + more;
    CoveringGrows(mid, after, more, g, b);
  }

  lemma CopyFloods(net: Net, index: nat, g: Graph, b: Flood)
    requires Covering(net, g, b) && index < |net.flights| && net.flights[index].msg.id == b.id
    ensures
      var fl := net.flights[index];
      fl.to < |net.nodes| && (fl.msg.recipient == Nobody || net.nodes[fl.to].budget <= 0)
  {
    assert net.flights[index] in net.flights;
  }

  /** Handling one arrival of the message. */
  lemma CoveringArrival(net: Net, index: nat, env: Env, listeners: seq<NodeId>, g: Graph, b: Flood)
    requires Covering(net, g, b) && |g| <= b.ttl + 2
    requires Faithful(net, Arrive(index, env, listeners), g, b) && net.flights[index].msg.id == b.id
    ensures Covering(Apply(net, Arrive(index, env, listeners)), g, b)
  {
    hide Spread, DeliverEffect, Covering, Reached, Flooded, Receipts;
    var fl, step := net.flights[index], Arrive(index, env, listeners);
    CoveringShape(net, g, b);
    CopyFloods(net, index, g, b);
    var m, s, from, after := fl.msg, net.nodes[fl.to], Some(fl.from), Apply(net, step);
    ApplyWellFormed(net, step);
    FloodedKept(net, step, b);
    SeenAfterArrival(s, m, from, env);
    CopyFacts(net, index, g, b);
    if m.id in s.seen {
      ArrivalOnward(s, m, from, env);
      NothingSpread(fl.to, listeners, |g|);
      assert after.flights == Without(net.flights, index);
      CoveringDrops(net, index, g, b);
      CoveringSameSeen(Net(net.nodes, after.flights), after, g, b);
    } else {
      var mid := Relayed(net, after, index, listeners);
      RelayedShape(net, after, index, listeners, b);
      if fl.to == b.origin {
        NothingSpread(fl.to, listeners, |g|);
        assert mid.flights == Without(net.flights, index);
        CoveringComesBack(net, mid, index, g, b);
      } else if m.ttl > 0 {
        PublishFlights(DecrementTTL(m), fl.to, listeners, |g|);
        CoveringRelays(net, mid, index, g, b);
      } else {
        NothingSpread(fl.to, listeners, |g|);
        assert mid.flights == Without(net.flights, index);
        CoveringEnds(net, mid, index, g, b);
      }
      CoveringFirst(net, index, env, listeners, g, b);
    }
  }

  lemma RelayedShape(net: Net, after: Net, index: nat, listeners: seq<NodeId>, b: Flood)
    requires WellFormed(net) && WellFormed(after) && |after.nodes| == |net.nodes| && Flooded(after, b)
    requires index < |net.flights| && net.flights[index].to < |net.nodes| && ValidListeners(|net.nodes|, listeners)
    ensures WellFormed(Relayed(net, after, index, listeners)) && Flooded(Relayed(net, after, index, listeners), b)
  {
    hide Spread, Onward;
    var fl := net.flights[index];
    SpreadMembers(Onward(net.nodes[fl.to], fl.msg), fl.to, listeners, |net.nodes|);
  }

  lemma NothingSpread(at: NodeId, listeners: seq<NodeId>, n: nat)
    ensures Spread([], at, listeners, n) == []
  {
  }

  lemma CopyFacts(net: Net, index: nat, g: Graph, b: Flood)
    requires Covering(net, g, b) && index < |net.flights| && net.flights[index].msg.id == b.id
    ensures CopyOf(net.flights[index].msg, b) && net.flights[index].msg.hopCount < |Reached(net, b)|
    ensures net.flights[index].to in Reached(net, b) <==>
            net.flights[index].to == b.origin || b.id in net.nodes[net.flights[index].to].seen
  {
    assert net.flights[index] in net.flights;
  }

  lemma CoveringSameSeen(net: Net, after: Net, g: Graph, b: Flood)
    requires Covering(net, g, b) && WellFormed(after) && |after.nodes| == |net.nodes| && Flooded(after, b)
    requires after.flights == net.flights
    requires forall u :: 0 <= u < |net.nodes| ==> (b.id in after.nodes[u].seen <==> b.id in net.nodes[u].seen)
    ensures Covering(after, g, b)
  {
    assert after.flights == net.flights + [];
    CoveringGrows(net, after, [], g, b);
  }

  lemma CoveringStep(net: Net, step: Step, g: Graph, b: Flood)
    requires Covering(net, g, b) && |g| <= b.ttl + 2 && Faithful(net, step, g, b)
    ensures Covering(Apply(net, step), g, b)
  {
    hide Spread, DeliverEffect, SendEffect, Covering, Flooded;
    CoveringShape(net, g, b);
    ApplyWellFormed(net, step);
    FloodedKept(net, step, b);
    if Enabled(net, step) {
      match step
      case Send(at, m, env, listeners) =>
        SendOuts(net.nodes[at], m, env);
        OtherFlights(SendEffect(net.nodes[at], m, env).outs, m, b.id, at, listeners, |g|);
        CoveringGrows(net, Apply(net, step), Spread(SendEffect(net.nodes[at], m, env).outs, at, listeners, |g|), g, b);
      case Arrive(index, env, listeners) =>
        if net.flights[index].msg.id == b.id {
          CoveringArrival(net, index, env, listeners, g, b);
        } else {
          CoveringOther(net, index, env, listeners, g, b);
        }
      case PruneSprayed(_) => CoveringSameSeen(net, Apply(net, step), g, b);
      case Connect(_, _) => CoveringSameSeen(net, Apply(net, step), g, b);
    }
  }

  lemma {:induction false} CoveringRun(net: Net, steps: seq<Step>, g: Graph, b: Flood)
    requires WellFormed(net) && Covering(net, g, b) && |g| <= b.ttl + 2 && FaithfulRun(net, steps, g, b)
    ensures Covering(After(net, steps), g, b)
  {
    hide Covering, Apply, Faithful;
    if steps != [] {
      var k := |steps| - 1;
      CoveringRun(net, steps[..k], g, b);
      CoveringStep(After(net, steps[..k]), steps[k], g, b);
    }
  }

  // ------------------------------------------------------------- the two results

  /** A network that floods the message and in which nobody has seen it, and its first send; an addressed
      message is only flooded when no stream to its recipient can be opened. */
  ghost predicate Start(net: Net, first: Step, g: Graph, b: Flood) {
    && WellFormed(net) && |net.nodes| == |g| && ValidGraph(g) && b.origin < |g| && Flooded(net, b)
    && (forall u :: 0 <= u < |net.nodes| ==> b.id !in net.nodes[u].seen)
    && (forall fl :: fl in net.flights ==> fl.msg.id != b.id)
    && first.Send? && first.at == b.origin && first.listeners == g[b.origin]
    && first.msg.id == b.id && first.msg.recipient == b.recipient && first.msg.sender == Peer(b.origin)
    && !(b.recipient.Peer? && first.env.directOk)
    && first.msg.ttl == b.ttl && first.msg.hopCount == 0
  }

  lemma StartPublishes(net: Net, first: Step, g: Graph, b: Flood)
    requires Start(net, first, g, b)
    ensures SendEffect(net.nodes[b.origin], first.msg, first.env).outs == [Publish(first.msg)]
    ensures SendEffect(net.nodes[b.origin], first.msg, first.env).state == net.nodes[b.origin]
  {
  }

  lemma CoveringStart(net: Net, first: Step, g: Graph, b: Flood)
    requires Start(net, first, g, b)
    ensures Covering(Apply(net, first), g, b)
  {
    hide Spread, Flooded, SendEffect, OnItsWay, Covering, Copies;
    var after, m := Apply(net, first), first.msg;
    ApplyWellFormed(net, first);
    FloodedKept(net, first, b);
    StartPublishes(net, first, g, b);
    SpreadIsCopies(m, b.origin, g[b.origin], |g|);
    StartCovers(net, after, m, g, b);
  }

  /** The flights of one publish. */
  function Copies(m: Message, at: NodeId, listeners: seq<NodeId>): seq<Flight> {
    seq(|listeners|, i requires 0 <= i < |listeners| => Flight(m, at, listeners[i]))
  }

  lemma SpreadIsCopies(m: Message, at: NodeId, listeners: seq<NodeId>, n: nat)
    ensures Spread([Publish(m)], at, listeners, n) == Copies(m, at, listeners)
  {
    PublishFlights(m, at, listeners, n);
  }

  lemma StartCovers(net: Net, after: Net, m: Message, g: Graph, b: Flood)
    requires WellFormed(after) && |after.nodes| == |g| && ValidGraph(g) && b.origin < |g| && Flooded(after, b)
    requires forall u :: 0 <= u < |after.nodes| ==> b.id !in after.nodes[u].seen
    requires forall fl :: fl in net.flights ==> fl.msg.id != b.id
    requires m.id == b.id && CopyOf(m, b) && m.hopCount == 0
    requires after.flights == net.flights + Copies(m, b.origin, g[b.origin])
    ensures Covering(after, g, b)
  {
    hide OnItsWay, Flooded, ValidGraph;
    assert ValidListeners(|g|, g[b.origin]) by { GraphListeners(g, b.origin); }
    assert Reached(after, b) == {b.origin};
    NeighboursServed(after, net.flights, m, b.origin, g[b.origin]);
    forall i | 0 <= i < |net.flights|
      ensures after.flights[i].msg.id != b.id
    {
      assert net.flights[i] in net.flights;
    }
  }

  lemma GraphListeners(g: Graph, u: NodeId)
    requires ValidGraph(g) && u < |g|
    ensures ValidListeners(|g|, g[u])
  {
  }

  /** Nothing of the broadcast is in flight any more. */
  predicate Quiet(net: Net, id: MsgId) {
    forall i :: 0 <= i < |net.flights| ==> net.flights[i].msg.id != id
  }

  lemma {:induction false} PathReached(net: Net, g: Graph, b: Flood, p: seq<NodeId>)
    requires Covering(net, g, b) && Quiet(net, b.id) && IsPath(g, p) && p[0] == b.origin
    ensures p[|p| - 1] in Reached(net, b) && Has(net, b.id, p[|p| - 1])
  {
    var k := |p| - 1;
    if k > 0 {
      PathReached(net, g, b, p[..k]);
      assert p[k - 1 + 1] in g[p[k - 1]];
      assert Has(net, b.id, p[k]) || OnItsWay(net, b.id, p[k]);
    } else {
      assert b.origin in Reached(net, b) && b.origin in g[b.origin];
      assert Has(net, b.id, p[0]) || OnItsWay(net, b.id, p[0]);
    }
  }

  /** On a connected neighbour graph of at most ttl + 2 nodes, without dedup prunes or losses, once
      nothing of a broadcast is in flight every node has accepted it, whatever the order of arrivals. */
  lemma FloodCovers(net: Net, first: Step, steps: seq<Step>, g: Graph, b: Flood, u: NodeId)
    requires Start(net, first, g, b) && Connected(g, b.origin) && |g| <= b.ttl + 2
    requires WellFormed(Apply(net, first)) && FaithfulRun(Apply(net, first), steps, g, b)
    requires Quiet(After(Apply(net, first), steps), b.id) && u < |g|
    ensures Has(After(Apply(net, first), steps), b.id, u)
  {
    hide Covering, Apply, After, FaithfulRun;
    CoveringStart(net, first, g, b);
    CoveringRun(Apply(net, first), steps, g, b);
    assert Reachable(g, b.origin, u);
    var p :| IsPath(g, p) && p[0] == b.origin && p[|p| - 1] == u;
    PathReached(After(Apply(net, first), steps), g, b, p);
  }

  // ------------------------------------------------- how far it cannot reach

  /** A labelling of the nodes by distance: 0 at the origin, growing by at most one along a link. */
  ghost predicate Distances(g: Graph, dist: NodeId -> nat, b: Flood) {
    && dist(b.origin) == 0
    && forall v: NodeId, w: NodeId :: v < |g| && w in g[v] ==> dist(w) <= dist(v) + 1
  }

  /** Copies are never further from the origin than the hops they have taken. */
  ghost predicate Near(net: Net, g: Graph, dist: NodeId -> nat, b: Flood) {
    && WellFormed(net) && |net.nodes| == |g| && ValidGraph(g) && Flooded(net, b)
    && (forall fl :: fl in net.flights && fl.msg.id == b.id ==> CopyOf(fl.msg, b) && dist(fl.to) <= fl.msg.hopCount + 1)
    && (forall u: NodeId :: u < |g| && b.id in net.nodes[u].seen ==> dist(u) <= b.ttl + 1)
  }

  /** Publishes reach neighbours only; prunes and losses are allowed. */
  ghost predicate Local(net: Net, step: Step, g: Graph, b: Flood) {
    match step
    case Send(_, m, _, _) => m.id != b.id
    case Arrive(index, env, listeners) =>
      && env.freshId != b.id && index < |net.flights| && net.flights[index].to < |g|
      && forall w :: w in listeners ==> w in g[net.flights[index].to]
    case PruneSeen(_) => true
    case PruneSprayed(_) => true
    case Connect(_, _) => true
    case Lose(_) => true
  }

  ghost predicate LocalRun(net: Net, steps: seq<Step>, g: Graph, b: Flood)
    requires WellFormed(net)
  {
    steps == [] ||
    var k := |steps| - 1;
    LocalRun(net, steps[..k], g, b) && Local(After(net, steps[..k]), steps[k], g, b)
  }

  lemma NearArrival(net: Net, index: nat, env: Env, listeners: seq<NodeId>, g: Graph, dist: NodeId -> nat, b: Flood)
    requires Near(net, g, dist, b) && Distances(g, dist, b)
    requires Local(net, Arrive(index, env, listeners), g, b) && ValidListeners(|g|, listeners)
    ensures Near(Apply(net, Arrive(index, env, listeners)), g, dist, b)
  {
    hide Spread, DeliverEffect, Receipts, Flooded;
    var fl, step := net.flights[index], Arrive(index, env, listeners);
    var m, s, from := fl.msg, net.nodes[fl.to], Some(fl.from);
    assert fl in net.flights;
    ApplyWellFormed(net, step);
    FloodedKept(net, step, b);
    SeenAfterArrival(s, m, from, env);
    var sent := Spread(DeliverEffect(s, m, from, env).outs, fl.to, listeners, |g|);
    if m.id != b.id {
      OtherArrivalFlights(s, m, from, env, b.id, fl.to, listeners, |g|);
    } else {
      assert m.recipient == Nobody || s.budget <= 0 by { FloodedHere(net, b, fl.to); }
      NearOnward(s, m, from, env, fl.to, listeners, |g|, b.id);
    }
    assert forall x :: x in sent && x.msg.id == b.id ==> CopyOf(x.msg, b) && dist(x.to) <= x.msg.hopCount + 1;
  }

  lemma FloodedHere(net: Net, b: Flood, u: NodeId)
    requires Flooded(net, b) && u < |net.nodes|
    ensures b.recipient == Nobody || net.nodes[u].budget <= 0
  {
  }

  /** The copies an arrival sends on are one hop further, and go to listeners. */
  lemma NearOnward(s: NodeState, m: Message, from: Option<NodeId>, env: Env, at: NodeId, listeners: seq<NodeId>, n: nat,
                   id: MsgId)
    requires (m.recipient == Nobody || s.budget <= 0) && env.freshId != id && ValidListeners(n, listeners)
    ensures
      forall fl :: fl in Spread(DeliverEffect(s, m, from, env).outs, at, listeners, n) && fl.msg.id == id ==>
        fl.msg == DecrementTTL(m) && m.ttl > 0 && fl.to in listeners
  {
    hide Spread, DeliverEffect, Receipts;
    ArrivalOnward(s, m, from, env);
    NothingSpread(at, listeners, n);
    SpreadAppend(Onward(s, m), Receipts(s, m, from, env), at, listeners, n);
    ReceiptFlights(s, m, from, env, id, at, listeners, n);
    PublishFlights(DecrementTTL(m), at, listeners, n);
  }

  lemma NearStep(net: Net, step: Step, g: Graph, dist: NodeId -> nat, b: Flood)
    requires Near(net, g, dist, b) && Distances(g, dist, b) && Local(net, step, g, b)
    ensures Near(Apply(net, step), g, dist, b)
  {
    hide Spread, SendEffect, DeliverEffect, Flooded;
    ApplyWellFormed(net, step);
    FloodedKept(net, step, b);
    if Enabled(net, step) {
      match step
      case Send(at, m, env, listeners) =>
        SendOuts(net.nodes[at], m, env);
        OtherFlights(SendEffect(net.nodes[at], m, env).outs, m, b.id, at, listeners, |g|);
      case Arrive(index, env, listeners) => NearArrival(net, index, env, listeners, g, dist, b);
      case PruneSeen(_) =>
      case PruneSprayed(_) =>
      case Connect(_, _) =>
      case Lose(_) =>
    }
  }

  lemma {:induction false} NearRun(net: Net, steps: seq<Step>, g: Graph, dist: NodeId -> nat, b: Flood)
    requires WellFormed(net) && Near(net, g, dist, b) && Distances(g, dist, b) && LocalRun(net, steps, g, b)
    ensures Near(After(net, steps), g, dist, b)
  {
    hide Near, Apply, Local, Distances;
    if steps != [] {
      var k := |steps| - 1;
      NearRun(net, steps[..k], g, dist, b);
      NearStep(After(net, steps[..k]), steps[k], g, dist, b);
    }
  }

  /** A node more than ttl + 1 links from the origin never accepts the broadcast, in any run, pruned or
      not: so ttl + 2 nodes is as many as a flood is sure to cover. */
  lemma FloodReach(net: Net, first: Step, steps: seq<Step>, g: Graph, dist: NodeId -> nat, b: Flood, u: NodeId)
    requires Start(net, first, g, b) && Distances(g, dist, b) && u < |g| && dist(u) >= b.ttl + 2
    requires WellFormed(Apply(net, first)) && LocalRun(Apply(net, first), steps, g, b)
    ensures !Has(After(Apply(net, first), steps), b.id, u)
  {
    hide Spread;
    PublishFlights(first.msg, b.origin, first.listeners, |g|);
    NearRun(Apply(net, first), steps, g, dist, b);
  }
}
