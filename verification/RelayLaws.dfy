/** What a live node does with one message, told in full: whom it serves, what it notes, what it reports,
    and when it answers with a receipt. */
module RelayLaws {
  import opened Prelude
  import opened Routing
  import opened Mesh
  import opened Network
  import opened CopyPotential
  import opened RelayPaths
  import opened RelayReports
  import opened FloodCoverage

  // ------------------------------------------------------------------ sending

  /** A node without a budget sends an addressed message over a stream to its recipient if it can open
      one, and publishes everything else; it reports one send, with no hops. */
  lemma FloodingSends(s: NodeState, m: Message, env: Env)
    requires m.recipient == Nobody || s.budget <= 0
    ensures
      var e := SendEffect(s, m, env);
      && e.state == s && e.msg == m
      && e.events == [RelayEvent(m.id, m.typ, Sent, None, 0, m.ttl, m.copiesMade)]
      && e.outs == [if m.recipient.Peer? && env.directOk then Direct(m.recipient.id, m) else Publish(m)]
  {
  }

  /** A node with a budget counts the original before it routes. */
  lemma RoutingSends(s: NodeState, m: Message, env: Env)
    requires m.recipient != Nobody && s.budget > 0
    ensures
      var first := m.(copiesMade := if m.copiesMade < 1 then 1 else m.copiesMade);
      var e := SendEffect(s, m, env);
      && e.outs == RouteToPeers(s, first, None, env.now).outs
      && e.state == RouteToPeers(s, first, None, env.now).state
      && e.events != [] && e.events[0] == RelayEvent(m.id, m.typ, Sent, None, 0, m.ttl, first.copiesMade)
  {
    hide RouteToPeers;
  }

  // ------------------------------------------------------------ a routing pass

  /** These peers were handed copies. */
  function Served(outs: seq<Out>): set<NodeId> {
    set o | o in outs && o.Direct? :: o.to
  }

  lemma ServedSnoc(outs: seq<Out>, to: NodeId, m: Message)
    ensures Served(outs + [Direct(to, m)]) == Served(outs) + {to}
  {
  }

  /** The destination is served whenever it is offered the message, and the ledger of the message grows by
      exactly the peers served; nobody else in it is served again. Other ledgers stay. */
  lemma {:induction false} PassLedger(s: NodeState, m: Message, from: Option<NodeId>, myP: real, cands: seq<NodeId>)
    requires Distinct(cands)
    ensures
      var e := Route(s, m, from, myP, cands);
      && e.msg.id == m.id && e.msg.recipient == m.recipient
      && SprayedTo(e.state.sprayed, m.id) == SprayedTo(s.sprayed, m.id) + Served(e.outs)
      && (forall id :: id != m.id ==> SprayedTo(e.state.sprayed, id) == SprayedTo(s.sprayed, id))
      && (forall p :: p in Served(e.outs) ==> p in cands && (p in SprayedTo(s.sprayed, m.id) ==> Peer(p) == m.recipient))
      && (forall p :: p in cands && Peer(p) == m.recipient ==> p in Served(e.outs))
  {
    hide Route, OfferTo, SprayedTo;
    RouteEmpty(s, m, from, myP);
    if cands != [] {
      var k := |cands| - 1;
      var init, peer := cands[..k], cands[k];
      assert peer !in init && forall p :: p in cands <==> p in init || p == peer;
      PassLedger(s, m, from, myP, init);
      PassNext(s, m, from, myP, cands);
      OfferLedger(Route(s, m, from, myP, init), from, myP, peer);
    }
  }

  lemma RouteEmpty(s: NodeState, m: Message, from: Option<NodeId>, myP: real)
    ensures Route(s, m, from, myP, []) == Effect(s, [], [], m) && Served([]) == {}
  {
  }

  lemma PassNext(s: NodeState, m: Message, from: Option<NodeId>, myP: real, cands: seq<NodeId>)
    requires cands != []
    ensures Route(s, m, from, myP, cands)
              == OfferTo(Route(s, m, from, myP, cands[..|cands| - 1]), from, myP, cands[|cands| - 1])
  {
  }

  lemma OfferLedger(e: Effect, from: Option<NodeId>, myP: real, peer: NodeId)
    ensures
      var after := OfferTo(e, from, myP, peer);
      && after.msg.id == e.msg.id && after.msg.recipient == e.msg.recipient
      && (forall id :: id != e.msg.id ==> SprayedTo(after.state.sprayed, id) == SprayedTo(e.state.sprayed, id))
      && if after == e then Peer(peer) != e.msg.recipient
         else
           && SprayedTo(after.state.sprayed, e.msg.id) == SprayedTo(e.state.sprayed, e.msg.id) + {peer}
           && Served(after.outs) == Served(e.outs) + {peer}
           && (peer in SprayedTo(e.state.sprayed, e.msg.id) ==> Peer(peer) == e.msg.recipient)
  {
    hide Served;
    var after := OfferTo(e, from, myP, peer);
    ServedSnoc(e.outs, peer, after.msg);
    assert Peer(peer) == e.msg.recipient ==> |after.outs| == |e.outs| + 1;
  }

  /** Whoever is known, but for us and the previous hop, is considered; so a destination we know gets the
      message, exactly once, whatever the budget. */
  lemma DestinationServed(s: NodeState, m: Message, from: Option<NodeId>, now: int, dst: NodeId)
    requires m.recipient == Peer(dst) && dst in s.peers && dst != s.me && from != Some(dst)
    ensures
      var outs := RouteToPeers(s, m, from, now).outs;
      exists i :: ServesOnce(outs, i, dst, m)
  {
    hide Route, Served;
    var myP, cands := StatForDestination(s.encounters, m.recipient, now), Candidates(s, from);
    PassLedger(s, m, from, myP, cands);
    RouteOuts(s, m, from, myP, cands);
    var outs := RouteToPeers(s, m, from, now).outs;
    assert dst in Served(outs);
    ServedIndex(outs, dst, m);
  }

  /** Send i is the only one to this peer, and carries the message with its count. */
  ghost predicate ServesOnce(outs: seq<Out>, i: int, to: NodeId, m: Message) {
    && 0 <= i < |outs| && outs[i] == Direct(to, m.(copiesMade := outs[i].msg.copiesMade))
    && m.copiesMade <= outs[i].msg.copiesMade
    && forall j :: 0 <= j < |outs| && j != i ==> outs[j].Direct? && outs[j].to != to
  }

  lemma ServedIndex(outs: seq<Out>, to: NodeId, m: Message)
    requires to in Served(outs) && OneHop(outs, m) && forall o :: o in outs ==> o.Direct?
    ensures exists i :: ServesOnce(outs, i, to, m)
  {
    var o :| o in outs && o.to == to;
    var i :| 0 <= i < |outs| && outs[i] == o;
    assert forall j :: 0 <= j < |outs| ==> outs[j] in outs;
    assert ServesOnce(outs, i, to, m);
  }

  // ------------------------------------------------------------------ arrivals

  /** What a first arrival changes in a node besides its table and its ledger: the message is seen, and its
      sender, if it can be read, is known. */
  lemma ArrivalNoted(s: NodeState, m: Message, from: Option<NodeId>, env: Env)
    requires m.id !in s.seen
    ensures
      var after := DeliverEffect(s, m, from, env).state;
      && after.seen == s.seen + {m.id} && after.me == s.me
      && after.peers == s.peers + (if m.sender.Peer? && m.sender.id != s.me then {m.sender.id} else {})
      && (from.None? ==> after.encounters == s.encounters)
      && (from.Some? ==> after.encounters == Recorded(s.encounters, from.value, env.now))
  {
    hide Recorded, DeliverEffect;
    StateAfterArrival(s, m, from, env);
  }

  /** The application sees the message as it was passed on: our own as it came, one without hops left as it
      came, any other one hop further. */
  lemma ArrivalShown(s: NodeState, m: Message, from: Option<NodeId>, env: Env)
    requires m.id !in s.seen
    ensures
      var shown := DeliverEffect(s, m, from, env).msg;
      if m.sender == Peer(s.me) || m.ttl <= 0 then shown == m
      else
        && shown == m.(ttl := m.ttl - 1, hopCount := m.hopCount + 1, copiesMade := shown.copiesMade)
        && shown.copiesMade >= m.copiesMade
  {
    hide Noted, RouteToPeers, AckEffect;
    var noted := Noted(s, m, from, env.now);
    NotedBudget(s, m, from, env.now);
    RoutedCount(noted, DecrementTTL(m), from, env.now);
  }

  lemma RoutedCount(s: NodeState, m: Message, from: Option<NodeId>, now: int)
    ensures
      var e := RouteToPeers(s, m, from, now);
      e.msg == m.(copiesMade := e.msg.copiesMade) && e.msg.copiesMade >= m.copiesMade
  {
    hide Route, Ascending;
    RouteOuts(s, m, from, StatForDestination(s.encounters, m.recipient, now), Candidates(s, from));
  }

  // ------------------------------------------------------------------ receipts

  /** The receipt for a message, addressed to its sender. */
  function Receipt(id: MsgId, me: NodeId, to: Party): Message {
    Message(id, DeliveryAck, Peer(me), to, 8, 0, 0, "")
  }

  /** A chat, a file or an alert from somebody else, addressed to this node. */
  predicate Answerable(m: Message, me: NodeId) {
    m.recipient == Peer(me) && m.sender != Peer(me) && (m.typ == Chat || m.typ == File || m.typ == Sos)
  }

  /** These sends are the receipts among them. */
  predicate IsReceipt(o: Out, id: MsgId) {
    o.msg.id == id
  }

  /** A first arrival is answered exactly when it is answerable. Everything else that is sent is the
      message itself; what is sent as the answer is the receipt, with its count. */
  lemma OnlyReceipts(s: NodeState, m: Message, from: Option<NodeId>, env: Env)
    requires m.id !in s.seen && env.freshId != m.id
    ensures
      var outs := DeliverEffect(s, m, from, env).outs;
      forall o :: o in outs ==>
        if IsReceipt(o, env.freshId) then
          && Answerable(m, s.me)
          && o.msg == Receipt(env.freshId, s.me, m.sender).(copiesMade := o.msg.copiesMade)
        else o.msg.id == m.id
  {
    hide Noted, RelayEffect, AckEffect;
    var noted := Noted(s, m, from, env.now);
    var relay := RelayEffect(noted, m, from, env.now);
    NotedBudget(s, m, from, env.now);
    RelayOuts(noted, m, from, env.now);
    AckOuts(relay.state, m, env);
  }

  /** The answer to an answerable first arrival, whose sender can be read: exactly one receipt, straight to
      the sender, whom the arrival has made known; on a node without a budget and without a stream to the
      sender, one publish instead. */
  lemma ReceiptSent(s: NodeState, m: Message, from: Option<NodeId>, env: Env)
    requires m.id !in s.seen && Answerable(m, s.me) && m.sender.Peer?
    ensures
      var receipt := Receipt(env.freshId, s.me, m.sender);
      var relay := RelayEffect(Noted(s, m, from, env.now), m, from, env.now);
      exists answer: seq<Out> ::
        && DeliverEffect(s, m, from, env).outs == relay.outs + answer
        && if s.budget > 0 then exists i :: ServesOnce(answer, i, m.sender.id, receipt.(copiesMade := 1))
           else answer == [if env.directOk then Direct(m.sender.id, receipt) else Publish(receipt)]
  {
    hide Noted, RelayEffect, RouteToPeers;
    var noted := Noted(s, m, from, env.now);
    var relay := RelayEffect(noted, m, from, env.now);
    var receipt := Receipt(env.freshId, s.me, m.sender);
    NotedBudget(s, m, from, env.now);
    NotedPeers(s, m, from, env.now);
    RelayOuts(noted, m, from, env.now);
    var answer := AckEffect(relay.state, m, env).outs;
    assert AckFor(relay.state, m, env) == receipt;
    if s.budget > 0 {
      DestinationServed(relay.state, receipt.(copiesMade := 1), None, env.now, m.sender.id);
    }
    assert DeliverEffect(s, m, from, env).outs == relay.outs + answer;
  }

  lemma NotedPeers(s: NodeState, m: Message, from: Option<NodeId>, now: int)
    ensures m.sender.Peer? && m.sender.id != s.me ==> m.sender.id in Noted(s, m, from, now).peers
  {
    hide Recorded;
  }

  // ------------------------------------------------------------------- reports

  /** What a first arrival reports about the message: its reception as it came, and each forward with one
      hop more and one less to live. */
  lemma ReportedNumbers(s: NodeState, m: Message, from: Option<NodeId>, env: Env)
    requires m.id !in s.seen && env.freshId != m.id
    ensures
      var trace := TraceOf(DeliverEffect(s, m, from, env).events, m.id);
      && trace != [] && trace[0] == RelayEvent(m.id, m.typ, Received, from, m.hopCount, m.ttl, m.copiesMade)
      && forall i :: 1 <= i < |trace| ==>
           var e := trace[i];
           if m.ttl > 0 then e == RelayEvent(m.id, m.typ, Forwarded, from, m.hopCount + 1, m.ttl - 1, e.copies)
           else e == RelayEvent(m.id, m.typ, Dropped, from, m.hopCount, m.ttl, m.copiesMade)
  {
    hide DeliverEffect, TraceOf;
    ArrivalTrace(s, Call(m, from, env), m.id);
  }

  /** Along every relay path: what a node reports about a copy, its reception or its forwards, gives hops
      and time to live that add up to those of the first send. */
  lemma ReportsAlongPath(net: Net, steps: seq<Step>, m: Message, budget: int, fl: Flight, env: Env)
    requires WellFormed(net) && forall x :: x in net.flights ==> x.msg.id != m.id
    requires forall u :: 0 <= u < |net.nodes| ==> Budgeted(net.nodes[u], OriginOf(m, budget))
    requires forall i :: 0 <= i < |steps| ==> OnlySends(steps[i], m)
    requires fl in After(net, steps).flights && fl.msg.id == m.id && env.freshId != m.id
    requires fl.to < |After(net, steps).nodes| && m.id !in After(net, steps).nodes[fl.to].seen
    ensures
      var trace := TraceOf(DeliverEffect(After(net, steps).nodes[fl.to], fl.msg, Some(fl.from), env).events, m.id);
      forall i :: 0 <= i < |trace| ==> trace[i].hops + trace[i].ttl == m.hopCount + m.ttl && trace[i].from == Some(fl.from)
  {
    hide After, DeliverEffect, TraceOf, Budgeted;
    PathsFromFirstSend(net, steps, m, budget);
    ReportedNumbers(After(net, steps).nodes[fl.to], fl.msg, Some(fl.from), env);
  }

  // ---------------------------------------------------------------- encounters

  /** The seconds since a peer was last met, as far as the clock shows. */
  function Silence(stat: EncounterStat, now: int): nat {
    if now <= stat.lastSeen then 0 else now - stat.lastSeen
  }

  /** Meeting a peer: what is left after the silence, one second at a time, goes three quarters of the way to
      certainty. A stranger starts at three quarters. Nobody else's record changes. */
  lemma EncounterAfterSilence(encounters: Table, peer: NodeId, now: int)
    ensures
      var after := Recorded(encounters, peer, now);
      && after.Keys == encounters.Keys + {peer}
      && (forall id :: id in encounters && id != peer ==> after[id] == encounters[id])
      && if peer in encounters then
           var before := encounters[peer];
           var left := AgedByLoop(before.p, Silence(before, now));
           after[peer] == EncounterStat(before.peer, now, before.encounters + 1, left + (1.0 - left) * 0.75)
         else after[peer] == EncounterStat(Some(peer), now, 1, 0.75)
  {
    hide Aged, AgedByLoop;
    if peer in encounters {
      FastAgingRefinesLoop(encounters[peer].p, Silence(encounters[peer], now));
    } else {
      assert Aged(0.0, AgingUnits(FRESH_STAT.(peer := Some(peer)), now)) == 0.0 by {
        NothingFades(AgingUnits(FRESH_STAT.(peer := Some(peer)), now));
      }
    }
  }

  lemma NothingFades(units: int)
    ensures Aged(0.0, units) == 0.0
  {
    AgedBounds(0.0, units);
  }

  /** Our chance of meeting a destination: what the silence has left of its record, or none. */
  lemma ChanceAfterSilence(encounters: Table, dst: Party, now: int)
    ensures StatForDestination(encounters, dst, now) ==
              if dst.Peer? && dst.id in encounters then
                AgedByLoop(encounters[dst.id].p, Silence(encounters[dst.id], now))
              else 0.0
  {
    if dst.Peer? && dst.id in encounters {
      FastAgingRefinesLoop(encounters[dst.id].p, Silence(encounters[dst.id], now));
    }
  }
}
