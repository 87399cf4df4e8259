/** What a message keeps along every relay path, and that the live node never gives a copy away. */
module RelayPaths {
  import opened Prelude
  import opened Routing
  import opened Mesh
  import opened Network
  import opened CopyPotential

  // ------------------------------------------------------- along every path

  /** A message as it was handed to its first send, and a budget that no routing node exceeds. */
  datatype Origin = Origin(id: MsgId, ttl: int, hops: int, copies: int, budget: int)

  function OriginOf(m: Message, budget: int): Origin {
    Origin(m.id, m.ttl, m.hopCount, m.copiesMade, budget)
  }

  /** A copy of the message looks like the original after some hops. */
  predicate Descends(m: Message, o: Origin) {
    m.id == o.id ==>
      && m.ttl + m.hopCount == o.ttl + o.hops && m.ttl <= o.ttl && (o.ttl >= 0 ==> m.ttl >= 0)
      && o.copies <= m.copiesMade <= MaxOf(o.copies, o.budget)
  }

  function MaxOf(a: int, b: int): int {
    if a < b then b else a
  }

  /** Every node floods, or sprays within the budget; a node that sprays has a budget of its own. */
  predicate Budgeted(s: NodeState, o: Origin) {
    s.budget > 0 ==> o.budget >= 1 && ForwarderOf(s).SprayAndWait? && ForwarderOf(s).budget <= o.budget
  }

  ghost predicate PathInv(net: Net, o: Origin) {
    && WellFormed(net)
    && (forall u :: 0 <= u < |net.nodes| ==> Budgeted(net.nodes[u], o))
    && (forall fl :: fl in net.flights ==> Descends(fl.msg, o))
  }

  lemma {:induction false} RouteDescends(s: NodeState, m: Message, from: Option<NodeId>, myP: real,
                                         cands: seq<NodeId>, o: Origin)
    requires Budgeted(s, o) && s.budget > 0 && Descends(m, o)
    ensures
      var e := Route(s, m, from, myP, cands);
      && Descends(e.msg, o) && e.msg.id == m.id && (forall out :: out in e.outs ==> Descends(out.msg, o))
      && e.state == s.(sprayed := e.state.sprayed)
  {
    if cands != [] {
      var init, peer := cands[..|cands| - 1], cands[|cands| - 1];
      RouteDescends(s, m, from, myP, init, o);
      OfferDescends(Route(s, m, from, myP, init), from, myP, peer, o);
      hide OfferTo, Descends;
    }
  }

  lemma OfferDescends(e: Effect, from: Option<NodeId>, myP: real, peer: NodeId, o: Origin)
    requires Budgeted(e.state, o) && e.state.budget > 0 && Descends(e.msg, o)
    ensures
      var after := OfferTo(e, from, myP, peer);
      && Descends(after.msg, o) && after.msg.id == e.msg.id && after.state == e.state.(sprayed := after.state.sprayed)
      && (after.outs == e.outs || after.outs == e.outs + [Direct(peer, after.msg)])
  {
  }

  lemma SendDescends(s: NodeState, m: Message, env: Env, o: Origin)
    requires Budgeted(s, o) && Descends(m, o)
    ensures forall out :: out in SendEffect(s, m, env).outs ==> Descends(out.msg, o)
  {
    hide Route, Candidates, StatForDestination;
    if Routes(s, m) {
      var first := m.(copiesMade := if m.copiesMade < 1 then 1 else m.copiesMade);
      RouteDescends(s, first, None, StatForDestination(s.encounters, first.recipient, env.now), Candidates(s, None), o);
    }
  }

  lemma RelayDescends(s: NodeState, m: Message, from: Option<NodeId>, now: int, o: Origin)
    requires Budgeted(s, o) && Descends(m, o)
    ensures forall out :: out in RelayEffect(s, m, from, now).outs ==> Descends(out.msg, o)
  {
    hide Route, Candidates, StatForDestination;
    var next := DecrementTTL(m);
    if m.ttl > 0 && Routes(s, next) {
      RouteDescends(s, next, from, StatForDestination(s.encounters, next.recipient, now), Candidates(s, from), o);
    }
  }

  lemma SpreadDescends(outs: seq<Out>, at: NodeId, listeners: seq<NodeId>, n: nat, o: Origin)
    requires (forall v :: v in listeners ==> v < n) && forall out :: out in outs ==> Descends(out.msg, o)
    ensures forall fl :: fl in Spread(outs, at, listeners, n) ==> Descends(fl.msg, o)
  {
    hide Spread;
    SpreadMembers(outs, at, listeners, n);
    forall fl | fl in Spread(outs, at, listeners, n)
      ensures Descends(fl.msg, o)
    {
      var i :| 0 <= i < |outs| && fl.msg == outs[i].msg;
      assert outs[i] in outs;
    }
  }

  /** Sends of the message itself start it as it was first sent; nobody else uses its id. */
  predicate PathStep(step: Step, o: Origin) {
    match step
    case Send(_, m, _, _) => Descends(m, o)
    case Arrive(_, env, _) => env.freshId != o.id
    case PruneSeen(_) => true
    case PruneSprayed(_) => true
    case Connect(_, _) => true
    case Lose(_) => true
  }

  lemma PathKept(net: Net, step: Step, o: Origin)
    requires PathInv(net, o) && PathStep(step, o)
    ensures PathInv(Apply(net, step), o)
  {
    hide Spread, SendEffect, RelayEffect, AckEffect, Noted, Descends;
    ApplyWellFormed(net, step);
    if Enabled(net, step) {
      match step
      case Send(at, m, env, listeners) =>
        SendOuts(net.nodes[at], m, env);
        SendDescends(net.nodes[at], m, env, o);
        SpreadDescends(SendEffect(net.nodes[at], m, env).outs, at, listeners, |net.nodes|, o);
      case Arrive(index, env, listeners) =>
        var fl := net.flights[index];
        assert fl in net.flights;
        var s, from := net.nodes[fl.to], Some(fl.from);
        StateAfterArrival(s, fl.msg, from, env);
        NotedBudget(s, fl.msg, from, env.now);
        ArrivalDescends(s, fl.msg, from, env, o);
        SpreadDescends(DeliverEffect(s, fl.msg, from, env).outs, fl.to, listeners, |net.nodes|, o);
      case PruneSeen(_) =>
      case PruneSprayed(_) =>
      case Connect(_, _) =>
      case Lose(_) =>
    }
  }

  lemma NotedBudget(s: NodeState, m: Message, from: Option<NodeId>, now: int)
    ensures Noted(s, m, from, now).budget == s.budget && Noted(s, m, from, now).forwarder == s.forwarder
    ensures Noted(s, m, from, now).me == s.me
  {
    hide Recorded;
  }

  lemma ArrivalDescends(s: NodeState, m: Message, from: Option<NodeId>, env: Env, o: Origin)
    requires Budgeted(s, o) && Descends(m, o) && env.freshId != o.id
    ensures forall out :: out in DeliverEffect(s, m, from, env).outs ==> Descends(out.msg, o)
  {
    hide SendEffect, RelayEffect, Noted;
    if m.id !in s.seen {
      var noted := Noted(s, m, from, env.now);
      NotedBudget(s, m, from, env.now);
      RelayDescends(noted, m, from, env.now, o);
      RelayOuts(noted, m, from, env.now);
      var relay := RelayEffect(noted, m, from, env.now);
      if WantsAck(relay.state, m) {
        SendDescends(relay.state, AckFor(relay.state, m, env), env, o);
      }
    }
  }

  /** In every run, pruned or not, flooding and spraying nodes mixed: along every relay path the time to
      live and the hops add up to what they were at the origin, the copy count never falls below its first
      value, and it never exceeds the budget unless it started above it. */
  lemma {:induction false} PathInvariant(net: Net, steps: seq<Step>, o: Origin)
    requires PathInv(net, o) && forall i :: 0 <= i < |steps| ==> PathStep(steps[i], o)
    ensures PathInv(After(net, steps), o)
  {
    hide PathInv, Apply, PathStep;
    assert WellFormed(net) by { PathWellFormed(net, o); }
    if steps != [] {
      var k := |steps| - 1;
      PathInvariant(net, steps[..k], o);
      PathKept(After(net, steps[..k]), steps[k], o);
    }
  }

  /** The id is used for this message only. */
  predicate OnlySends(step: Step, m: Message) {
    && (step.Send? && step.msg.id == m.id ==> step.msg == m)
    && (step.Arrive? ==> step.env.freshId != m.id)
  }

  /** From a network in which the message has not been sent yet, whatever its copy count starts at: after
      any run in which it is sent, again and again if need be, each of its copies has the hops its time to
      live has lost, a copy count no lower than the first, and one within the budget or still the first. */
  lemma PathsFromFirstSend(net: Net, steps: seq<Step>, m: Message, budget: int)
    requires WellFormed(net) && forall fl :: fl in net.flights ==> fl.msg.id != m.id
    requires forall u :: 0 <= u < |net.nodes| ==> Budgeted(net.nodes[u], OriginOf(m, budget))
    requires forall i :: 0 <= i < |steps| ==> OnlySends(steps[i], m)
    ensures
      forall fl :: fl in After(net, steps).flights && fl.msg.id == m.id ==>
        && fl.msg.hopCount - m.hopCount == m.ttl - fl.msg.ttl >= 0
        && m.copiesMade <= fl.msg.copiesMade
        && (fl.msg.copiesMade <= budget || fl.msg.copiesMade == m.copiesMade)
  {
    hide After, Budgeted;
    assert forall i :: 0 <= i < |steps| ==> PathStep(steps[i], OriginOf(m, budget));
    PathInvariant(net, steps, OriginOf(m, budget));
  }

  lemma PathWellFormed(net: Net, o: Origin)
    requires PathInv(net, o)
    ensures WellFormed(net)
  {
  }

  // ------------------------------------------------------- copies are kept

  ghost predicate EncountersSound(net: Net) {
    forall u :: 0 <= u < |net.nodes| ==> InUnit(net.nodes[u].encounters)
  }

  lemma NotedSound(s: NodeState, m: Message, from: Option<NodeId>, now: int)
    requires InUnit(s.encounters)
    ensures InUnit(Noted(s, m, from, now).encounters)
  {
    if from.Some? {
      var stat := if from.value in s.encounters then s.encounters[from.value] else FRESH_STAT.(peer := from);
      AgedBounds(stat.p, AgingUnits(stat, now));
      EncounteredBounds(stat.(p := Aged(stat.p, AgingUnits(stat, now))), now, map[]);
    }
  }

  lemma EncountersKept(net: Net, step: Step)
    requires WellFormed(net) && EncountersSound(net)
    ensures EncountersSound(Apply(net, step))
  {
    hide SendEffect, DeliverEffect, Noted;
    if Enabled(net, step) {
      match step
      case Send(at, m, env, _) => SendOuts(net.nodes[at], m, env);
      case Arrive(index, env, _) =>
        var fl := net.flights[index];
        StateAfterArrival(net.nodes[fl.to], fl.msg, Some(fl.from), env);
        NotedSound(net.nodes[fl.to], fl.msg, Some(fl.from), env.now);
      case PruneSeen(_) =>
      case PruneSprayed(_) =>
      case Connect(_, _) =>
      case Lose(_) =>
    }
  }

  lemma {:induction false} EncountersInRuns(net: Net, steps: seq<Step>)
    requires WellFormed(net) && EncountersSound(net)
    ensures EncountersSound(After(net, steps))
  {
    hide Apply, EncountersSound;
    if steps != [] {
      EncountersInRuns(net, steps[..|steps| - 1]);
      EncountersKept(After(net, steps[..|steps| - 1]), steps[|steps| - 1]);
    }
  }

  /** A live node compares its own predictability with a peer's zero, so in no run does it decide to hand
      its own copy over, whatever the message, the peer, the moment and the forwarder. */
  lemma NeverHandsOff(net: Net, steps: seq<Step>, u: NodeId, dst: Party, copies: int, peer: NodeId, now: int, holds: bool)
    requires WellFormed(net) && EncountersSound(net) && u < |net.nodes|
    ensures
      var s := After(net, steps).nodes[u];
      !Decide(ForwarderOf(s), dst, copies, Peer(peer), StatForDestination(s.encounters, dst, now), 0.0, holds).Handoff?
  {
    hide Apply;
    EncountersInRuns(net, steps);
    var s := After(net, steps).nodes[u];
    if dst.Peer? && dst.id in s.encounters {
      AgedBounds(s.encounters[dst.id].p, AgingUnits(s.encounters[dst.id], now));
    }
  }
}
