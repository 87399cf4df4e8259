/** A network of live nodes: messages in flight, and steps in any order. */
module Network {
  import opened Prelude
  import opened Routing
  import opened Mesh

  /** A copy on its way from one node to another. */
  datatype Flight = Flight(msg: Message, from: NodeId, to: NodeId)

  datatype Net = Net(nodes: seq<NodeState>, flights: seq<Flight>)

  /** What can happen next. `listeners` are the nodes a publish of that step reaches. A handled arrival
      is one atomic step; prunes, joins, leaves and losses can happen at any moment. */
  datatype Step =
    | Send(at: NodeId, msg: Message, env: Env, listeners: seq<NodeId>)
    | Arrive(index: nat, env: Env, listeners: seq<NodeId>)
    | PruneSeen(at: NodeId)
    | PruneSprayed(at: NodeId)
    | Connect(at: NodeId, peers: set<NodeId>)
    | Lose(index: nat)

  predicate WellFormed(net: Net) {
    && (forall i :: 0 <= i < |net.nodes| ==> net.nodes[i].me == i)
    && (forall fl :: fl in net.flights ==> fl.to < |net.nodes|)
  }

  predicate ValidListeners(n: nat, listeners: seq<NodeId>) {
    Distinct(listeners) && forall v :: v in listeners ==> v < n
  }

  predicate Enabled(net: Net, step: Step) {
    match step
    case Send(at, _, _, listeners) => at < |net.nodes| && ValidListeners(|net.nodes|, listeners)
    case Arrive(index, _, listeners) => index < |net.flights| && ValidListeners(|net.nodes|, listeners)
    case PruneSeen(at) => at < |net.nodes|
    case PruneSprayed(at) => at < |net.nodes|
    case Connect(at, _) => at < |net.nodes|
    case Lose(index) => index < |net.flights|
  }

  /** A direct stream reaches its peer if that peer is in the network; a publish reaches the listeners. */
  function Emit(o: Out, from: NodeId, listeners: seq<NodeId>, n: nat): seq<Flight> {
    match o
    case Direct(to, m) => if to < n then [Flight(m, from, to)] else []
    case Publish(m) => seq(|listeners|, i requires 0 <= i < |listeners| => Flight(m, from, listeners[i]))
  }

  function Spread(outs: seq<Out>, from: NodeId, listeners: seq<NodeId>, n: nat): seq<Flight> {
    if outs == [] then []
    else Spread(outs[..|outs| - 1], from, listeners, n) + Emit(outs[|outs| - 1], from, listeners, n)
  }

  function Without<T>(s: seq<T>, i: nat): seq<T>
    requires i < |s|
  {
    s[..i] + s[i + 1..]
  }

  /** The next state; a step that is not enabled changes nothing. */
  ghost function Apply(net: Net, step: Step): Net
    requires WellFormed(net)
  {
    if !Enabled(net, step) then net
    else
      match step
      case Send(at, m, env, listeners) =>
        var e := SendEffect(net.nodes[at], m, env);
        Net(net.nodes[at := e.state], net.flights + Spread(e.outs, at, listeners, |net.nodes|))
      case Arrive(index, env, listeners) =>
        var fl := net.flights[index];
        var e := DeliverEffect(net.nodes[fl.to], fl.msg, Some(fl.from), env);
        Net(net.nodes[fl.to := e.state],
            Without(net.flights, index) + Spread(e.outs, fl.to, listeners, |net.nodes|))
      case PruneSeen(at) => net.(nodes := net.nodes[at := net.nodes[at].(seen := {})])
      case PruneSprayed(at) => net.(nodes := net.nodes[at := net.nodes[at].(sprayed := map[])])
      case Connect(at, peers) => net.(nodes := net.nodes[at := net.nodes[at].(peers := peers)])
      case Lose(index) => net.(flights := Without(net.flights, index))
  }

  /** The network after a sequence of steps. */
  ghost function After(net: Net, steps: seq<Step>): (r: Net)
    requires WellFormed(net)
    ensures WellFormed(r) && |r.nodes| == |net.nodes|
  {
    if steps == [] then net
    else
      var before := After(net, steps[..|steps| - 1]);
      ApplyWellFormed(before, steps[|steps| - 1]);
      Apply(before, steps[|steps| - 1])
  }

  // ------------------------------------------------- what a handler can emit

  /** Routing hands at most one copy to each candidate, changes nothing in the message but its copy
      count, and never lowers that count. */
  lemma {:induction false} RouteOuts(s: NodeState, m: Message, from: Option<NodeId>, myP: real, cands: seq<NodeId>)
    requires Distinct(cands)
    ensures
      var e := Route(s, m, from, myP, cands);
      && e.msg == m.(copiesMade := e.msg.copiesMade) && m.copiesMade <= e.msg.copiesMade
      && e.state == s.(sprayed := e.state.sprayed)
      && |e.outs| <= |cands|
      && (forall o :: o in e.outs ==>
            && o.Direct? && o.to in cands
            && o.msg == m.(copiesMade := o.msg.copiesMade) && m.copiesMade <= o.msg.copiesMade <= e.msg.copiesMade)
      && (forall i, j :: 0 <= i < j < |e.outs| ==> e.outs[i].to != e.outs[j].to)
  {
    if cands != [] {
      var init, peer := cands[..|cands| - 1], cands[|cands| - 1];
      RouteOuts(s, m, from, myP, init);
      OfferOuts(Route(s, m, from, myP, init), from, myP, peer);
      hide OfferTo;
      assert forall c :: c in init ==> c in cands && c != peer;
    }
  }

  /** An offer changes nothing, or hands the candidate the message, perhaps counted one higher. */
  lemma OfferOuts(e: Effect, from: Option<NodeId>, myP: real, peer: NodeId)
    ensures
      var after := OfferTo(e, from, myP, peer);
      || after == e
      || (&& after.outs == e.outs + [Direct(peer, after.msg)]
          && after.msg == e.msg.(copiesMade := after.msg.copiesMade) && e.msg.copiesMade <= after.msg.copiesMade
          && after.state == e.state.(sprayed := after.state.sprayed))
  {
  }

  /** What one handler call emits: copies of one message that differ only in the copy count, either all
      published or handed to distinct peers. */
  predicate OneHop(outs: seq<Out>, m: Message) {
    && (forall o :: o in outs ==> o.msg == m.(copiesMade := o.msg.copiesMade) && m.copiesMade <= o.msg.copiesMade)
    && ((forall o :: o in outs ==> o.Direct?) || |outs| == 1)
    && (forall i, j :: 0 <= i < j < |outs| ==> outs[i].Direct? && outs[j].Direct? && outs[i].to != outs[j].to)
  }

  lemma SendOuts(s: NodeState, m: Message, env: Env)
    ensures OneHop(SendEffect(s, m, env).outs, m)
    ensures SendEffect(s, m, env).state == s.(sprayed := SendEffect(s, m, env).state.sprayed)
  {
    hide RouteToPeers;
    RoutingOuts(s, m.(copiesMade := if m.copiesMade < 1 then 1 else m.copiesMade), None, env.now);
  }

  lemma RoutingOuts(s: NodeState, m: Message, from: Option<NodeId>, now: int)
    ensures
      var e := RouteToPeers(s, m, from, now);
      && OneHop(e.outs, m) && e.state == s.(sprayed := e.state.sprayed)
      && e.msg == m.(copiesMade := e.msg.copiesMade)
  {
    hide Route, Ascending;
    RouteOuts(s, m, from, StatForDestination(s.encounters, m.recipient, now), Candidates(s, from));
  }

  lemma RelayOuts(s: NodeState, m: Message, from: Option<NodeId>, now: int)
    ensures
      var e := RelayEffect(s, m, from, now);
      && OneHop(e.outs, DecrementTTL(m))
      && (m.ttl <= 0 || Own(s, m) ==> e.outs == [])
      && e.state == s.(sprayed := e.state.sprayed)
      && e.msg == m.(ttl := e.msg.ttl, hopCount := e.msg.hopCount, copiesMade := e.msg.copiesMade)
  {
    hide RouteToPeers;
    RoutingOuts(s, DecrementTTL(m), from, now);
  }

  lemma AckOuts(s: NodeState, m: Message, env: Env)
    ensures OneHop(AckEffect(s, m, env).outs, AckFor(s, m, env))
    ensures !WantsAck(s, m) ==> AckEffect(s, m, env).outs == []
    ensures AckEffect(s, m, env).state == s.(sprayed := AckEffect(s, m, env).state.sprayed)
  {
    hide SendEffect;
    SendOuts(s, AckFor(s, m, env), env);
  }

  /** This flight carries one of these sends. */
  ghost predicate Carries(fl: Flight, outs: seq<Out>, from: NodeId, listeners: seq<NodeId>) {
    && fl.from == from
    && exists i :: 0 <= i < |outs| && fl.msg == outs[i].msg
                   && (outs[i].Direct? ==> outs[i].to == fl.to) && (outs[i].Publish? ==> fl.to in listeners)
  }

  lemma EmitMembers(o: Out, from: NodeId, listeners: seq<NodeId>, n: nat, fl: Flight)
    requires fl in Emit(o, from, listeners, n) && forall v :: v in listeners ==> v < n
    ensures fl.to < n && fl.from == from && fl.msg == o.msg
    ensures (o.Direct? ==> o.to == fl.to) && (o.Publish? ==> fl.to in listeners)
  {
    if o.Publish? {
      var i :| 0 <= i < |listeners| && fl == Flight(o.msg, from, listeners[i]);
      assert listeners[i] in listeners;
    }
  }

  lemma {:induction false} SpreadMembers(outs: seq<Out>, from: NodeId, listeners: seq<NodeId>, n: nat)
    requires forall v :: v in listeners ==> v < n
    ensures forall fl :: fl in Spread(outs, from, listeners, n) ==> fl.to < n && Carries(fl, outs, from, listeners)
  {
    hide Emit;
    if outs != [] {
      var k := |outs| - 1;
      SpreadMembers(outs[..k], from, listeners, n);
      forall fl | fl in Spread(outs, from, listeners, n)
        ensures fl.to < n && Carries(fl, outs, from, listeners)
      {
        if fl in Spread(outs[..k], from, listeners, n) {
          var i :| 0 <= i < k && fl.msg == outs[..k][i].msg
                   && (outs[..k][i].Direct? ==> outs[..k][i].to == fl.to)
                   && (outs[..k][i].Publish? ==> fl.to in listeners);
          assert outs[i] == outs[..k][i];
        } else {
          EmitMembers(outs[k], from, listeners, n, fl);
        }
      }
    }
  }

  lemma {:induction false} SpreadAppend(a: seq<Out>, b: seq<Out>, from: NodeId, listeners: seq<NodeId>, n: nat)
    ensures Spread(a + b, from, listeners, n) == Spread(a, from, listeners, n) + Spread(b, from, listeners, n)
  {
    hide Emit;
    if b == [] {
      assert a + b == a;
    } else {
      var init, last := b[..|b| - 1], b[|b| - 1];
      SpreadAppend(a, init, from, listeners, n);
      assert (a + b)[..|a + b| - 1] == a + init && (a + b)[|a + b| - 1] == last;
      assert Spread(a + b, from, listeners, n) == Spread(a + init, from, listeners, n) + Emit(last, from, listeners, n);
    }
  }

  /** One hop reaches every node at most once. */
  lemma OneHopReach(outs: seq<Out>, m: Message, from: NodeId, listeners: seq<NodeId>, n: nat)
    requires OneHop(outs, m) && ValidListeners(n, listeners)
    ensures |Spread(outs, from, listeners, n)| <= n
  {
    if |outs| == 1 && outs[0].Publish? {
      assert outs[..0] == [];
      DistinctBound(listeners, Range(n));
    } else {
      SpreadDirect(outs, from, listeners, n);
    }
  }

  lemma {:induction false} SpreadDirect(outs: seq<Out>, from: NodeId, listeners: seq<NodeId>, n: nat)
    requires forall i :: 0 <= i < |outs| ==> outs[i].Direct?
    requires forall i, j :: 0 <= i < j < |outs| ==> outs[i].to != outs[j].to
    ensures |Spread(outs, from, listeners, n)| <= n
  {
    var targets := Targets(outs, n);
    SpreadTargets(outs, from, listeners, n);
    DistinctBound(targets, Range(n));
  }

  /** The peers within the network that direct sends go to. */
  function Targets(outs: seq<Out>, n: nat): (r: seq<NodeId>)
    requires forall i :: 0 <= i < |outs| ==> outs[i].Direct?
    requires forall i, j :: 0 <= i < j < |outs| ==> outs[i].to != outs[j].to
    ensures Distinct(r)
    ensures forall x :: x in r ==> x < n && exists i :: 0 <= i < |outs| && outs[i].to == x
  {
    if outs == [] then []
    else
      var k := |outs| - 1;
      var init, to := Targets(outs[..k], n), outs[k].to;
      assert forall x :: x in init ==> exists i :: 0 <= i < k && outs[..k][i].to == x;
      assert forall i :: 0 <= i < k ==> outs[..k][i] == outs[i];
      assert to !in init;
      if to < n then init + [to] else init
  }

  lemma {:induction false} SpreadTargets(outs: seq<Out>, from: NodeId, listeners: seq<NodeId>, n: nat)
    requires forall i :: 0 <= i < |outs| ==> outs[i].Direct?
    requires forall i, j :: 0 <= i < j < |outs| ==> outs[i].to != outs[j].to
    ensures |Spread(outs, from, listeners, n)| == |Targets(outs, n)|
  {
    if outs != [] {
      SpreadTargets(outs[..|outs| - 1], from, listeners, n);
    }
  }

  lemma ApplyWellFormed(net: Net, step: Step)
    requires WellFormed(net)
    ensures WellFormed(Apply(net, step)) && |Apply(net, step).nodes| == |net.nodes|
  {
    hide SendEffect, RelayEffect, AckEffect, Spread;
    if Enabled(net, step) {
      match step
      case Send(at, m, env, listeners) =>
        SendOuts(net.nodes[at], m, env);
        SpreadMembers(SendEffect(net.nodes[at], m, env).outs, at, listeners, |net.nodes|);
      case Arrive(index, env, listeners) =>
        var fl := net.flights[index];
        var s := net.nodes[fl.to];
        var noted := Noted(s, fl.msg, Some(fl.from), env.now);
        RelayOuts(noted, fl.msg, Some(fl.from), env.now);
        AckOuts(RelayEffect(noted, fl.msg, Some(fl.from), env.now).state, fl.msg, env);
        SpreadMembers(DeliverEffect(s, fl.msg, Some(fl.from), env).outs, fl.to, listeners, |net.nodes|);
      case PruneSeen(_) =>
      case PruneSprayed(_) =>
      case Connect(_, _) =>
      case Lose(_) =>
    }
  }

  // ------------------------------------------------------ weighing a sequence

  function Total(flights: seq<Flight>, w: Flight -> nat): nat {
    if flights == [] then 0 else Total(flights[..|flights| - 1], w) + w(flights[|flights| - 1])
  }

  lemma {:induction false} TotalAppend(a: seq<Flight>, b: seq<Flight>, w: Flight -> nat)
    ensures Total(a + b, w) == Total(a, w) + Total(b, w)
  {
    if b == [] {
      assert a + b == a;
    } else {
      TotalAppend(a, b[..|b| - 1], w);
      assert (a + b)[..|a + b| - 1] == a + b[..|b| - 1];
    }
  }

  lemma TotalWithout(flights: seq<Flight>, i: nat, w: Flight -> nat)
    requires i < |flights|
    ensures Total(flights, w) == Total(Without(flights, i), w) + w(flights[i])
  {
    hide Total;
    var before, after := flights[..i], flights[i + 1..];
    TotalAppend(before, after, w);
    TotalAppend([flights[i]], after, w);
    TotalAppend(before, [flights[i]] + after, w);
    TotalSnoc([], flights[i], w);
    TotalNone(w);
    assert [] + [flights[i]] == [flights[i]];
    assert before + ([flights[i]] + after) == flights;
  }

  lemma TotalNone(w: Flight -> nat)
    ensures Total([], w) == 0
  {
  }

  lemma TotalSnoc(flights: seq<Flight>, fl: Flight, w: Flight -> nat)
    ensures Total(flights + [fl], w) == Total(flights, w) + w(fl)
  {
    assert (flights + [fl])[..|flights|] == flights;
  }

  lemma {:induction false} TotalAtMost(flights: seq<Flight>, w: Flight -> nat, each: nat)
    requires forall fl :: fl in flights ==> w(fl) <= each
    ensures Total(flights, w) <= |flights| * each
  {
    if flights != [] {
      assert flights[|flights| - 1] in flights;
      TotalAtMost(flights[..|flights| - 1], w, each);
      assert |flights| * each == (|flights| - 1) * each + each;
    }
  }

  lemma {:induction false} TotalZero(flights: seq<Flight>, w: Flight -> nat)
    requires forall fl :: fl in flights ==> w(fl) == 0
    ensures Total(flights, w) == 0
  {
    TotalAtMost(flights, w, 0);
  }
}
