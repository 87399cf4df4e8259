/** How many copies of an addressed message a network of spraying nodes can create. The copy count
    travels with each copy, so siblings do not see each other's copies: the bound is exponential in the
    budget, and the budget itself is a bound only when it is 1. */
module CopyPotential {
  import opened Prelude
  import opened Routing
  import opened Mesh
  import opened Network
  import opened RelayTermination

  /** The message followed: its id, its destination, where it was sent, and the largest budget of a node. */
  datatype Case = Case(id: MsgId, dst: Party, origin: NodeId, budget: nat)

  /** A node that sprays, with a budget of its own. */
  ghost predicate Sprays(s: NodeState, budget: nat) {
    && 1 <= s.budget <= budget
    && ForwarderOf(s).SprayAndWait? && ForwarderOf(s).budget <= budget
    && forall k :: k in s.encounters ==> 0.0 <= s.encounters[k].p <= 1.0
  }

  /** ... and with all of that budget. */
  ghost predicate SpraysAll(s: NodeState, budget: nat) {
    Sprays(s, budget) && ForwarderOf(s) == SprayAndWait(budget)
  }

  ghost predicate SprayNet(net: Net, budget: nat) {
    WellFormed(net) && forall u :: 0 <= u < |net.nodes| ==> Sprays(net.nodes[u], budget)
  }

  /** Copies of the message are addressed to its destination and count at least the original. */
  predicate Labelled(net: Net, c: Case) {
    forall fl :: fl in net.flights && fl.msg.id == c.id ==> fl.msg.recipient == c.dst && fl.msg.copiesMade >= 1
  }

  function Left(budget: nat, copies: int): nat {
    if copies < 0 then budget else if copies < budget then budget - copies else 0
  }

  /** A copy on its way to a node other than the destination can still multiply this often. */
  function CopyWeight(c: Case): Flight -> nat {
    (fl: Flight) => if fl.msg.id == c.id && Peer(fl.to) != c.dst then Power(2, Left(c.budget, fl.msg.copiesMade)) else 0
  }

  function CopyCount(c: Case): Flight -> nat {
    (fl: Flight) => if fl.msg.id == c.id && Peer(fl.to) != c.dst then 1 else 0
  }

  /** The nodes other than the destination that have had the message. */
  function Holders(net: Net, c: Case): set<NodeId> {
    set u: NodeId | u < |net.nodes| && (u == c.origin || c.id in net.nodes[u].seen) && Peer(u) != c.dst
  }

  /** What the destination may still spray when the message first reaches it. */
  function Credit(net: Net, c: Case): nat {
    if c.budget >= 1 && c.dst.Peer? && c.dst.id < |net.nodes| && c.id !in net.nodes[c.dst.id].seen then
      PowerAtLeastOne(2, c.budget - 1)
      - 1
    else 0
  }

  function PowerAtLeastOne(base: nat, e: nat): (p: nat)
    requires base >= 1
    ensures p == Power(base, e) >= 1
  {
    PowerPositive(base, e);
    Power(base, e)
  }

  ghost function Potential(net: Net, c: Case): nat {
    |Holders(net, c)| + Total(net.flights, CopyWeight(c)) + Credit(net, c)
  }

  /** The physical copies outside the destination: held, or on their way. */
  ghost function PhysicalCopies(net: Net, c: Case): nat {
    |Holders(net, c)| + Total(net.flights, CopyCount(c))
  }

  lemma {:induction false} CountBelowWeight(flights: seq<Flight>, c: Case)
    ensures Total(flights, CopyCount(c)) <= Total(flights, CopyWeight(c))
  {
    if flights != [] {
      var fl := flights[|flights| - 1];
      PowerPositive(2, Left(c.budget, fl.msg.copiesMade));
      CountBelowWeight(flights[..|flights| - 1], c);
    }
  }

  // --------------------------------------------------------- one routing pass

  /** A node whose peer knows nothing of the destination never hands its own copy over. */
  lemma NoHandoff(s: NodeState, budget: nat, dst: Party, copies: int, peer: NodeId, now: int, holds: bool)
    requires Sprays(s, budget)
    ensures 0.0 <= StatForDestination(s.encounters, dst, now)
    ensures !Decide(ForwarderOf(s), dst, copies, Peer(peer), StatForDestination(s.encounters, dst, now), 0.0, holds).Handoff?
  {
    if dst.Peer? && dst.id in s.encounters {
      AgedBounds(s.encounters[dst.id].p, AgingUnits(s.encounters[dst.id], now));
    }
  }

  /** The copies a routing pass sends out weigh what the message loses by it. */
  lemma {:induction false} RouteWeight(s: NodeState, m: Message, from: Option<NodeId>, now: int, cands: seq<NodeId>,
                                       c: Case, at: NodeId, listeners: seq<NodeId>, n: nat)
    requires Sprays(s, c.budget) && m.recipient == c.dst && m.copiesMade >= 0
    ensures
      var e := Route(s, m, from, StatForDestination(s.encounters, m.recipient, now), cands);
      && Sprays(e.state, c.budget) && e.state.encounters == s.encounters
      && e.msg.recipient == m.recipient && e.msg.id == m.id && e.msg.copiesMade >= m.copiesMade
      && Total(Spread(e.outs, at, listeners, n), CopyWeight(c)) + Power(2, Left(c.budget, e.msg.copiesMade))
           <= Power(2, Left(c.budget, m.copiesMade))
  {
    hide StatForDestination;
    if cands != [] {
      var init, peer := cands[..|cands| - 1], cands[|cands| - 1];
      RouteWeight(s, m, from, now, init, c, at, listeners, n);
      var myP := StatForDestination(s.encounters, m.recipient, now);
      var e := Route(s, m, from, myP, init);
      NoHandoff(e.state, c.budget, m.recipient, e.msg.copiesMade, peer, now, peer in SprayedTo(e.state.sprayed, m.id));
      OfferWeight(e, from, myP, peer, c, at, listeners, n);
    }
  }

  lemma OfferWeight(e: Effect, from: Option<NodeId>, myP: real, peer: NodeId,
                    c: Case, at: NodeId, listeners: seq<NodeId>, n: nat)
    requires Sprays(e.state, c.budget) && e.msg.recipient == c.dst && e.msg.copiesMade >= 0 && 0.0 <= myP
    ensures
      var after := OfferTo(e, from, myP, peer);
      && Sprays(after.state, c.budget) && after.state.encounters == e.state.encounters
      && after.msg.recipient == e.msg.recipient && after.msg.id == e.msg.id && after.msg.copiesMade >= e.msg.copiesMade
      && Total(Spread(after.outs, at, listeners, n), CopyWeight(c)) + Power(2, Left(c.budget, after.msg.copiesMade))
           <= Total(Spread(e.outs, at, listeners, n), CopyWeight(c)) + Power(2, Left(c.budget, e.msg.copiesMade))
  {
    hide Total, Spread;
    var after := OfferTo(e, from, myP, peer);
    SprayOffer(e, from, myP, peer, c.budget);
    hide OfferTo, Sprays;
    if after != e {
      var fl := Flight(after.msg, at, peer);
      OneMoreOut(e.outs, peer, after.msg, at, listeners, n);
      TotalSnoc(Spread(e.outs, at, listeners, n), fl, CopyWeight(c));
      if Peer(peer) != c.dst {
        PowerTwice(Left(c.budget, e.msg.copiesMade));
      }
    }
  }

  /** A spraying node's offer: nothing, a delivery, or a copy while its own budget lasts. */
  lemma SprayOffer(e: Effect, from: Option<NodeId>, myP: real, peer: NodeId, budget: nat)
    requires Sprays(e.state, budget) && 0.0 <= myP
    ensures
      var after := OfferTo(e, from, myP, peer);
      && Sprays(after.state, budget) && after.state.encounters == e.state.encounters
      && (after == e
          || (&& after.outs == e.outs + [Direct(peer, after.msg)]
              && if Peer(peer) == e.msg.recipient then after.msg == e.msg
                 else e.msg.copiesMade < budget && after.msg == e.msg.(copiesMade := e.msg.copiesMade + 1)))
  {
  }

  lemma OneMoreOut(outs: seq<Out>, peer: NodeId, m: Message, at: NodeId, listeners: seq<NodeId>, n: nat)
    ensures Spread(outs + [Direct(peer, m)], at, listeners, n)
              == if peer < n then Spread(outs, at, listeners, n) + [Flight(m, at, peer)] else Spread(outs, at, listeners, n)
  {
    assert (outs + [Direct(peer, m)])[..|outs|] == outs;
  }

  /** A relayed or sent copy of the message produces less weight than it has. */
  lemma RoutePassWeight(s: NodeState, m: Message, from: Option<NodeId>, now: int,
                        c: Case, at: NodeId, listeners: seq<NodeId>, n: nat)
    requires Sprays(s, c.budget) && m.recipient == c.dst && m.copiesMade >= 0
    ensures Total(Spread(RouteToPeers(s, m, from, now).outs, at, listeners, n), CopyWeight(c)) + 1
              <= Power(2, Left(c.budget, m.copiesMade))
  {
    hide Route, Candidates, StatForDestination, Power, Spread, Total;
    RouteWeight(s, m, from, now, Candidates(s, from), c, at, listeners, n);
    var e := RouteToPeers(s, m, from, now);
    PowerPositive(2, Left(c.budget, e.msg.copiesMade));
  }

  /** Sends of other messages weigh nothing. */
  lemma OtherOuts(outs: seq<Out>, m: Message, c: Case, at: NodeId, listeners: seq<NodeId>, n: nat)
    requires OneHop(outs, m) && m.id != c.id && ValidListeners(n, listeners)
    ensures Total(Spread(outs, at, listeners, n), CopyWeight(c)) == 0
  {
    SpreadMembers(outs, at, listeners, n);
    forall fl | fl in Spread(outs, at, listeners, n)
      ensures CopyWeight(c)(fl) == 0
    {
      var i :| 0 <= i < |outs| && fl.msg == outs[i].msg;
      assert outs[i] in outs;
    }
    TotalZero(Spread(outs, at, listeners, n), CopyWeight(c));
  }

  // -------------------------------------------------------------- the network

  /** Steps of a run without dedup pruning in which nobody else uses the message's id. */
  predicate Permitted(step: Step, c: Case) {
    match step
    case Send(_, m, env, _) => m.id != c.id
    case Arrive(_, env, _) => env.freshId != c.id
    case PruneSeen(_) => false
    case PruneSprayed(_) => true
    case Connect(_, _) => true
    case Lose(_) => true
  }

  ghost predicate Inv(net: Net, c: Case) {
    SprayNet(net, c.budget) && Labelled(net, c) && c.dst != Nobody
  }

  lemma SpraysAfterNoting(s: NodeState, m: Message, from: Option<NodeId>, now: int, budget: nat)
    requires Sprays(s, budget)
    ensures Sprays(Noted(s, m, from, now), budget)
    ensures ForwarderOf(Noted(s, m, from, now)) == ForwarderOf(s)
  {
    if from.Some? {
      var stat := if from.value in s.encounters then s.encounters[from.value] else FRESH_STAT.(peer := from);
      AgedBounds(stat.p, AgingUnits(stat, now));
      EncounteredBounds(stat.(p := Aged(stat.p, AgingUnits(stat, now))), now, map[]);
    }
  }

  /** What an arrival of any message sends out, weighed for the message followed. */
  lemma ArrivalWeight(s: NodeState, m: Message, from: Option<NodeId>, env: Env, c: Case,
                      at: NodeId, listeners: seq<NodeId>, n: nat)
    requires Sprays(s, c.budget) && c.dst != Nobody && env.freshId != c.id && ValidListeners(n, listeners)
    requires m.id == c.id ==> m.recipient == c.dst && m.copiesMade >= 1
    ensures
      var relay := RelayEffect(s, m, from, env.now);
      var ack := AckEffect(relay.state, m, env);
      var w := Total(Spread(relay.outs + ack.outs, at, listeners, n), CopyWeight(c));
      if m.id == c.id then w + 1 <= Power(2, Left(c.budget, m.copiesMade)) else w == 0
  {
    hide Spread, Total, SendEffect, RouteToPeers, Power;
    var relay := RelayEffect(s, m, from, env.now);
    var ack := AckEffect(relay.state, m, env);
    AckOuts(relay.state, m, env);
    SpreadAppend(relay.outs, ack.outs, at, listeners, n);
    TotalAppend(Spread(relay.outs, at, listeners, n), Spread(ack.outs, at, listeners, n), CopyWeight(c));
    OtherOuts(ack.outs, AckFor(relay.state, m, env), c, at, listeners, n);
    RelayOuts(s, m, from, env.now);
    if m.id != c.id {
      OtherOuts(relay.outs, DecrementTTL(m), c, at, listeners, n);
    } else if relay.outs == [] {
      PowerPositive(2, Left(c.budget, m.copiesMade));
      OtherOuts([], m.(id := env.freshId), c, at, listeners, n);
    } else {
      RoutePassWeight(s, DecrementTTL(m), from, env.now, c, at, listeners, n);
    }
  }

  lemma HoldersGrow(net: Net, after: Net, c: Case, at: NodeId)
    requires |after.nodes| == |net.nodes| && at < |net.nodes|
    requires forall u :: 0 <= u < |net.nodes| && u != at ==> after.nodes[u].seen == net.nodes[u].seen
    requires net.nodes[at].seen <= after.nodes[at].seen
    ensures |Holders(after, c)| <= |Holders(net, c)| + (if Peer(at) != c.dst then 1 else 0)
    ensures (c.id in after.nodes[at].seen ==> c.id in net.nodes[at].seen) ==> |Holders(after, c)| <= |Holders(net, c)|
  {
    CardinalityMonotone(Holders(after, c), Holders(net, c) + {at});
    if (c.id in after.nodes[at].seen ==> c.id in net.nodes[at].seen) || Peer(at) == c.dst {
      CardinalityMonotone(Holders(after, c), Holders(net, c));
    }
  }

  /** An arrival never increases the potential. */
  lemma ArrivalPotential(net: Net, index: nat, env: Env, listeners: seq<NodeId>, c: Case)
    requires Inv(net, c) && Permitted(Arrive(index, env, listeners), c) && Enabled(net, Arrive(index, env, listeners))
    ensures Potential(Apply(net, Arrive(index, env, listeners)), c) <= Potential(net, c)
  {
    hide Spread, Total, SendEffect, RelayEffect, AckEffect, Noted, Power, Holders;
    var n, w, step := |net.nodes|, CopyWeight(c), Arrive(index, env, listeners);
    var fl := net.flights[index];
    var m, from, s := fl.msg, Some(fl.from), net.nodes[fl.to];
    var after := Apply(net, step);
    assert fl in net.flights;
    TotalWithout(net.flights, index, w);
    TotalAppend(Without(net.flights, index), Spread(DeliverEffect(s, m, from, env).outs, fl.to, listeners, n), w);
    SeenAfterArrival(s, m, from, env);
    HoldersGrow(net, after, c, fl.to);
    if m.id in s.seen {
      OtherOuts([], m.(id := env.freshId), c, fl.to, listeners, n);
    } else {
      SpraysAfterNoting(s, m, from, env.now, c.budget);
      ArrivalWeight(Noted(s, m, from, env.now), m, from, env, c, fl.to, listeners, n);
      if m.id == c.id && Peer(fl.to) == c.dst {
        CreditPays(c.budget, m.copiesMade);
      }
    }
  }

  lemma SeenAfterArrival(s: NodeState, m: Message, from: Option<NodeId>, env: Env)
    ensures DeliverEffect(s, m, from, env).state.seen == s.seen + {m.id}
  {
    hide SendEffect, RelayEffect, AckEffect, Recorded;
    var noted := Noted(s, m, from, env.now);
    RelayOuts(noted, m, from, env.now);
    AckOuts(RelayEffect(noted, m, from, env.now).state, m, env);
    assert m.id in s.seen ==> s.seen == s.seen + {m.id};
  }

  /** A copy that reaches the destination counts at least the original, so it is worth no more than the
      credit set aside. */
  lemma CreditPays(budget: nat, copies: int)
    requires budget >= 1 && copies >= 1
    ensures Power(2, Left(budget, copies)) <= Power(2, budget - 1)
  {
    PowerMonotone(Left(budget, copies), budget - 1);
  }

  lemma {:induction false} PowerMonotone(a: nat, b: nat)
    requires a <= b
    ensures Power(2, a) <= Power(2, b)
  {
    if a < b {
      PowerMonotone(a, b - 1);
    }
  }

  // ------------------------------------------------- what every step preserves

  /** What an arrival leaves of a node: the note of the arrival, and perhaps a longer ledger. */
  lemma StateAfterArrival(s: NodeState, m: Message, from: Option<NodeId>, env: Env)
    ensures
      var after := DeliverEffect(s, m, from, env).state;
      after == (if m.id in s.seen then s else Noted(s, m, from, env.now)).(sprayed := after.sprayed)
  {
    hide SendEffect, RelayEffect, AckEffect, Noted;
    var noted := Noted(s, m, from, env.now);
    RelayOuts(noted, m, from, env.now);
    AckOuts(RelayEffect(noted, m, from, env.now).state, m, env);
  }

  /** Copies of the message that one hop sends out keep its address and count. */
  lemma HopLabelled(outs: seq<Out>, m: Message, c: Case, at: NodeId, listeners: seq<NodeId>, n: nat)
    requires OneHop(outs, m) && ValidListeners(n, listeners)
    requires m.id == c.id ==> m.recipient == c.dst && m.copiesMade >= 1
    ensures forall fl :: fl in Spread(outs, at, listeners, n) && fl.msg.id == c.id ==>
              fl.msg.recipient == c.dst && fl.msg.copiesMade >= 1
  {
    hide Spread;
    SpreadMembers(outs, at, listeners, n);
    forall fl | fl in Spread(outs, at, listeners, n) && fl.msg.id == c.id
      ensures fl.msg.recipient == c.dst && fl.msg.copiesMade >= 1
    {
      var i :| 0 <= i < |outs| && fl.msg == outs[i].msg;
      assert outs[i] in outs;
    }
  }

  lemma ArrivalLabelled(s: NodeState, m: Message, from: Option<NodeId>, env: Env, c: Case,
                        at: NodeId, listeners: seq<NodeId>, n: nat)
    requires ValidListeners(n, listeners) && env.freshId != c.id
    requires m.id == c.id ==> m.recipient == c.dst && m.copiesMade >= 1
    ensures forall fl :: fl in Spread(DeliverEffect(s, m, from, env).outs, at, listeners, n) && fl.msg.id == c.id ==>
              fl.msg.recipient == c.dst && fl.msg.copiesMade >= 1
  {
    hide Spread, SendEffect, RelayEffect, AckEffect, Noted;
    if m.id in s.seen {
      HopLabelled([], m, c, at, listeners, n);
    } else {
      var relay := RelayEffect(Noted(s, m, from, env.now), m, from, env.now);
      var ack := AckEffect(relay.state, m, env);
      RelayOuts(Noted(s, m, from, env.now), m, from, env.now);
      AckOuts(relay.state, m, env);
      SpreadAppend(relay.outs, ack.outs, at, listeners, n);
      HopLabelled(relay.outs, DecrementTTL(m), c, at, listeners, n);
      HopLabelled(ack.outs, AckFor(relay.state, m, env), c, at, listeners, n);
    }
  }

  lemma InvKept(net: Net, step: Step, c: Case)
    requires Inv(net, c) && Permitted(step, c)
    ensures Inv(Apply(net, step), c)
  {
    hide Spread, SendEffect, DeliverEffect, Noted;
    ApplyWellFormed(net, step);
    if Enabled(net, step) {
      match step
      case Send(at, m, env, listeners) =>
        SendOuts(net.nodes[at], m, env);
        HopLabelled(SendEffect(net.nodes[at], m, env).outs, m, c, at, listeners, |net.nodes|);
      case Arrive(index, env, listeners) =>
        var fl := net.flights[index];
        assert fl in net.flights;
        StateAfterArrival(net.nodes[fl.to], fl.msg, Some(fl.from), env);
        SpraysAfterNoting(net.nodes[fl.to], fl.msg, Some(fl.from), env.now, c.budget);
        ArrivalLabelled(net.nodes[fl.to], fl.msg, Some(fl.from), env, c, fl.to, listeners, |net.nodes|);
      case PruneSprayed(_) =>
      case Connect(_, _) =>
      case Lose(_) =>
    }
  }

  /** No permitted step increases the potential. */
  lemma StepPotential(net: Net, step: Step, c: Case)
    requires Inv(net, c) && Permitted(step, c)
    ensures Potential(Apply(net, step), c) <= Potential(net, c)
  {
    hide Spread, Total, SendEffect, Holders, CopyWeight;
    if Enabled(net, step) {
      match step
      case Send(at, m, env, listeners) =>
        SendOuts(net.nodes[at], m, env);
        var outs := SendEffect(net.nodes[at], m, env).outs;
        OtherOuts(outs, m, c, at, listeners, |net.nodes|);
        TotalAppend(net.flights, Spread(outs, at, listeners, |net.nodes|), CopyWeight(c));
        HoldersGrow(net, Apply(net, step), c, at);
      case Arrive(index, env, listeners) =>
        ArrivalPotential(net, index, env, listeners, c);
      case PruneSprayed(at) =>
        HoldersGrow(net, Apply(net, step), c, at);
      case Connect(at, _) =>
        HoldersGrow(net, Apply(net, step), c, at);
      case Lose(index) =>
        TotalWithout(net.flights, index, CopyWeight(c));
        assert Holders(Apply(net, step), c) == Holders(net, c) by {
          HoldersSame(net, Apply(net, step), c);
        }
    }
  }

  lemma HoldersSame(net: Net, after: Net, c: Case)
    requires after.nodes == net.nodes
    ensures Holders(after, c) == Holders(net, c)
  {
  }

  // ------------------------------------------------------------ the two bounds

  /** A network of spraying nodes that has never seen the message. */
  ghost predicate Unseen(net: Net, c: Case) {
    && SprayNet(net, c.budget) && c.dst != Nobody && c.origin < |net.nodes|
    && (forall u :: 0 <= u < |net.nodes| ==> c.id !in net.nodes[u].seen)
    && (forall fl :: fl in net.flights ==> fl.msg.id != c.id)
  }

  /** The message's first send. */
  predicate FirstSend(step: Step, net: Net, c: Case) {
    step.Send? && Enabled(net, step) && step.at == c.origin && step.msg.id == c.id && step.msg.recipient == c.dst
  }

  lemma StartPotential(net: Net, step: Step, c: Case)
    requires Unseen(net, c) && FirstSend(step, net, c)
    ensures Inv(Apply(net, step), c)
    ensures Potential(Apply(net, step), c) <= Power(2, c.budget) - 1
  {
    hide Spread, Total, SendEffect, Power, CopyWeight;
    var m, s, n := step.msg, net.nodes[c.origin], |net.nodes|;
    var outs, after := SendEffect(s, m, step.env).outs, Apply(net, step);
    ApplyWellFormed(net, step);
    SendOuts(s, m, step.env);
    FirstSendWeight(s, m, step.env, c, step.listeners, n);
    TotalAppend(net.flights, Spread(outs, c.origin, step.listeners, n), CopyWeight(c));
    assert Total(net.flights, CopyWeight(c)) == 0 by {
      NothingInFlight(net.flights, c);
    }
    CardinalityMonotone(Holders(after, c), if Peer(c.origin) != c.dst then {c.origin} else {});
    assert Power(2, c.budget) == 2 * Power(2, c.budget - 1) by {
      PowerTwice(c.budget);
    }
  }

  /** A first send puts copies in flight that count at least the original, and spends half of 2^L at most. */
  lemma FirstSendWeight(s: NodeState, m: Message, env: Env, c: Case, listeners: seq<NodeId>, n: nat)
    requires Sprays(s, c.budget) && m.id == c.id && m.recipient == c.dst != Nobody && ValidListeners(n, listeners)
    ensures
      var sent := Spread(SendEffect(s, m, env).outs, c.origin, listeners, n);
      && Total(sent, CopyWeight(c)) + 1 <= Power(2, c.budget - 1)
      && forall fl :: fl in sent && fl.msg.id == c.id ==> fl.msg.recipient == c.dst && fl.msg.copiesMade >= 1
  {
    hide Spread, Total, RouteToPeers, Power, CopyWeight;
    var first := m.(copiesMade := if m.copiesMade < 1 then 1 else m.copiesMade);
    SendOuts(s, first, env);
    assert SendEffect(s, m, env).outs == SendEffect(s, first, env).outs;
    HopLabelled(SendEffect(s, m, env).outs, first, c, c.origin, listeners, n);
    RoutePassWeight(s, first, None, env.now, c, c.origin, listeners, n);
    CreditPays(c.budget, first.copiesMade);
  }

  lemma NothingInFlight(flights: seq<Flight>, c: Case)
    requires forall fl :: fl in flights ==> fl.msg.id != c.id
    ensures Total(flights, CopyWeight(c)) == 0
  {
    TotalZero(flights, CopyWeight(c));
  }

  lemma PowerTwice(e: nat)
    requires e >= 1
    ensures Power(2, e) == 2 * Power(2, e - 1)
  {
  }

  predicate AllPermitted(steps: seq<Step>, c: Case) {
    forall i :: 0 <= i < |steps| ==> Permitted(steps[i], c)
  }

  lemma {:induction false} RunPotential(net: Net, steps: seq<Step>, c: Case)
    requires Inv(net, c) && AllPermitted(steps, c)
    ensures Inv(After(net, steps), c) && Potential(After(net, steps), c) <= Potential(net, c)
  {
    hide Potential, Apply, Permitted;
    if steps != [] {
      var k := |steps| - 1;
      RunPotential(net, steps[..k], c);
      InvKept(After(net, steps[..k]), steps[k], c);
      StepPotential(After(net, steps[..k]), steps[k], c);
    }
  }

  /** The nodes that have sent or accepted the message, the destination among them. */
  function Processed(net: Net, c: Case): set<NodeId> {
    set u: NodeId | u < |net.nodes| && (u == c.origin || c.id in net.nodes[u].seen)
  }

  /** In every run without dedup pruning, whatever the topology, the order of arrivals and the other
      traffic, at most 2^L - 1 copies of the message exist outside the destination, and at most 2^L nodes
      ever process it. */
  lemma CopyBound(net: Net, first: Step, steps: seq<Step>, c: Case)
    requires Unseen(net, c) && FirstSend(first, net, c) && AllPermitted(steps, c)
    ensures WellFormed(Apply(net, first))
    ensures PhysicalCopies(After(Apply(net, first), steps), c) <= Power(2, c.budget) - 1
    ensures |Processed(After(Apply(net, first), steps), c)| <= Power(2, c.budget)
  {
    hide Apply, After, Inv, Power, Total, CopyWeight, CopyCount, FirstSend;
    StartPotential(net, first, c);
    assert WellFormed(Apply(net, first)) by { InvWellFormed(Apply(net, first), c); }
    RunPotential(Apply(net, first), steps, c);
    var end := After(Apply(net, first), steps);
    CountBelowWeight(end.flights, c);
    CardinalityMonotone(Processed(end, c), Holders(end, c) + (if c.dst.Peer? then {c.dst.id} else {}));
  }

  lemma InvWellFormed(net: Net, c: Case)
    requires Inv(net, c)
    ensures WellFormed(net)
  {
  }
}
