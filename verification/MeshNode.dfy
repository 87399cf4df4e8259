/** The live node as an object: the handlers of Mesh, executed step by step on its own fields. */
module MeshNode {
  import opened Prelude
  import opened Routing
  import opened Mesh

  class Node {
    const me: NodeId
    const budget: int
    const forwarder: Option<Forwarder>
    var peers: set<NodeId>
    var seen: set<MsgId>
    var encounters: Table
    var sprayed: Ledger
    /** What was handed to the transport, reported to the relay callback, and passed to the application. */
    var outbox: seq<Out>
    var events: seq<RelayEvent>
    var inbox: seq<Message>

    /** Predictabilities are probabilities below certainty. */
    ghost predicate Valid()
      reads this
    {
      BelowOne(encounters)
    }

    ghost function State(): NodeState
      reads this
    {
      NodeState(me, peers, seen, encounters, sprayed, budget, forwarder)
    }

    constructor (me: NodeId, budget: int)
      ensures Valid() && State() == NodeState(me, {}, {}, map[], map[], Max0(budget),
                                              if budget <= 0 then None else Some(SprayAndWait(budget)))
      ensures outbox == [] && events == [] && inbox == []
    {
      this.me := me;
      this.budget := if budget <= 0 then 0 else budget;
      this.forwarder := if budget <= 0 then None else Some(SprayAndWait(budget));
      peers, seen, encounters, sprayed := {}, {}, map[], map[];
      outbox, events, inbox := [], [], [];
    }

    method RecordEncounter(peer: NodeId, now: int)
      requires Valid()
      modifies this`encounters
      ensures Valid() && encounters == Recorded(old(encounters), peer, now)
    {
      var stat := if peer in encounters then encounters[peer] else FRESH_STAT.(peer := Some(peer));
      var cell := new StatCell(stat);
      var units := cell.Aging(now);
      AgedBounds(stat.p, units);
      cell.AgePredictability(units);
      ghost var aged := cell.Value();
      EncounteredBounds(aged, now, map[]);
      cell.RecordEncounter(now, map[]);
      encounters := encounters[peer := cell.Value()];
    }

    method RoutingCandidates(from: Option<NodeId>) returns (out: seq<NodeId>)
      ensures out == Candidates(State(), from)
    {
      var kept: set<NodeId> := {};
      var remaining := peers;
      while remaining != {}
        invariant remaining <= peers
        invariant forall p :: p in kept <==> p in Eligible(State(), from) && p !in remaining
        decreases |remaining|
      {
        var p :| p in remaining;
        if p != me && from != Some(p) {
          kept := kept + {p};
        }
        remaining := remaining - {p};
      }
      assert kept == Eligible(State(), from);
      out := Ascending(kept);
    }

    method MarkSprayed(id: MsgId, peer: NodeId)
      modifies this`sprayed
      ensures sprayed == Mesh.MarkSprayed(old(sprayed), id, peer)
    {
      if id !in sprayed {
        sprayed := sprayed[id := {}];
      }
      sprayed := sprayed[id := sprayed[id] + {peer}];
    }

    method HandCopy(m: Message, from: Option<NodeId>, peer: NodeId)
      modifies this`sprayed, this`outbox, this`events
      ensures State() == old(State()).(sprayed := Mesh.MarkSprayed(old(sprayed), m.id, peer))
      ensures outbox == old(outbox) + [Direct(peer, m)] && events == old(events) + [Event(m, Forwarded, from)]
    {
      MarkSprayed(m.id, peer);
      events := events + [Event(m, Forwarded, from)];
      outbox := outbox + [Direct(peer, m)];
    }

    /** One candidate: the forwarder's decision on the message as it stands. */
    method OfferPeer(m: Message, from: Option<NodeId>, myP: real, peer: NodeId) returns (left: Message)
      modifies this`sprayed, this`outbox, this`events
      ensures
        var e := OfferTo(Effect(old(State()), [], [], m), from, myP, peer);
        State() == e.state && outbox == old(outbox) + e.outs && events == old(events) + e.events && left == e.msg
    {
      var f := if forwarder.Some? then forwarder.value else SprayAndWait(budget);
      var peerHolds := peer in SprayedTo(sprayed, m.id);
      var action := Decide(f, m.recipient, m.copiesMade, Peer(peer), myP, 0.0, peerHolds);
      left := m;
      if action == Spray {
        left := left.(copiesMade := left.copiesMade + 1);
      }
      if action == Spray || action == Deliver || action == Handoff {
        HandCopy(left, from, peer);
      }
    }

    /** Every candidate in turn. */
    method OfferAll(m: Message, from: Option<NodeId>, myP: real, cands: seq<NodeId>) returns (left: Message)
      modifies this`sprayed, this`outbox, this`events
      ensures
        var e := Route(old(State()), m, from, myP, cands);
        State() == e.state && outbox == old(outbox) + e.outs && events == old(events) + e.events && left == e.msg
    {
      hide OfferTo;
      left := m;
      for k := 0 to |cands|
        invariant
          var e := Route(old(State()), m, from, myP, cands[..k]);
          && State() == e.state && left == e.msg
          && outbox == old(outbox) + e.outs && events == old(events) + e.events
      {
        RouteNext(old(State()), m, from, myP, cands, k);
        hide Route;
        ghost var before := Route(old(State()), m, from, myP, cands[..k]);
        OfferExtends(before, from, myP, cands[k]);
        ghost var offered := OfferTo(Effect(before.state, [], [], before.msg), from, myP, cands[k]);
        left := OfferPeer(left, from, myP, cands[k]);
        assert outbox == old(outbox) + (before.outs + offered.outs);
        assert events == old(events) + (before.events + offered.events);
      }
      assert cands[..|cands|] == cands;
    }

    method RouteToPeers(m: Message, from: Option<NodeId>, now: int) returns (left: Message)
      modifies this`sprayed, this`outbox, this`events
      ensures
        var e := Mesh.RouteToPeers(old(State()), m, from, now);
        State() == e.state && outbox == old(outbox) + e.outs && events == old(events) + e.events && left == e.msg
    {
      hide Route, Candidates;
      var myP := StatForDestination(encounters, m.recipient, now);
      var cands := RoutingCandidates(from);
      left := OfferAll(m, from, myP, cands);
    }

    method SendMessage(m: Message, env: Env) returns (left: Message)
      modifies this`sprayed, this`outbox, this`events
      ensures
        var e := SendEffect(old(State()), m, env);
        State() == e.state && outbox == old(outbox) + e.outs && events == old(events) + e.events && left == e.msg
    {
      hide Mesh.RouteToPeers;
      left := m;
      if m.recipient != Nobody && budget > 0 {
        if left.copiesMade < 1 {
          left := left.(copiesMade := 1);
        }
        events := events + [SentEvent(left)];
        left := RouteToPeers(left, None, env.now);
        return;
      }
      events := events + [SentEvent(m)];
      if m.recipient.Peer? && env.directOk {
        outbox := outbox + [Direct(m.recipient.id, m)];
        return;
      }
      outbox := outbox + [Publish(m)];
    }

    method ForwardMessage(m: Message, from: Option<NodeId>, now: int) returns (left: Message)
      modifies this`sprayed, this`outbox, this`events
      ensures
        var e := ForwardEffect(old(State()), m, from, now);
        State() == e.state && outbox == old(outbox) + e.outs && events == old(events) + e.events && left == e.msg
    {
      hide Mesh.RouteToPeers;
      if budget > 0 && m.recipient != Nobody {
        left := RouteToPeers(m, from, now);
        return;
      }
      events := events + [Event(m, Forwarded, from)];
      outbox := outbox + [Publish(m)];
      left := m;
    }

    /** The whole handling of an arrival. */
    method DeliverMessage(m: Message, from: Option<NodeId>, env: Env)
      requires Valid()
      modifies this
      ensures Valid()
      ensures
        var e := DeliverEffect(old(State()), m, from, env);
        State() == e.state && outbox == old(outbox) + e.outs && events == old(events) + e.events
      ensures
        var e := DeliverEffect(old(State()), m, from, env);
        inbox == old(inbox) + if m.id in old(seen) then [] else [e.msg]
    {
      hide Noted, RelayEffect, AckEffect, BelowOne;
      if m.id in seen {
        events := events + [Event(m, Dropped, from)];
        return;
      }
      ghost var sent, reported := outbox, events;
      Note(m, from, env.now);
      ghost var relay := RelayEffect(State(), m, from, env.now);
      var left := Relay(m, from, env.now);
      inbox := inbox + [left];
      ghost var ack := AckEffect(State(), m, env);
      Acknowledge(m, env);
      Regroup(sent, relay.outs, ack.outs);
      Regroup(reported, [Event(m, Received, from)], relay.events);
      Regroup(reported, [Event(m, Received, from)] + relay.events, ack.events);
    }

    /** A first arrival is remembered, counts as an encounter, is reported, and names a peer. */
    method Note(m: Message, from: Option<NodeId>, now: int)
      requires Valid()
      modifies this`seen, this`encounters, this`peers, this`events
      ensures Valid() && State() == Noted(old(State()), m, from, now)
      ensures events == old(events) + [Event(m, Received, from)]
    {
      hide Recorded, BelowOne;
      seen := seen + {m.id};
      if from.Some? {
        RecordEncounter(from.value, now);
      }
      events := events + [Event(m, Received, from)];
      if m.sender.Peer? && m.sender.id != me {
        peers := peers + {m.sender.id};
      }
    }

    /** Store-and-forward: decrement and pass on, or report that the message dies here. */
    method Relay(m: Message, from: Option<NodeId>, now: int) returns (left: Message)
      modifies this`sprayed, this`outbox, this`events
      ensures
        var e := RelayEffect(old(State()), m, from, now);
        State() == e.state && outbox == old(outbox) + e.outs && events == old(events) + e.events && left == e.msg
    {
      left := m;
      if m.ttl > 0 && m.sender != Peer(me) {
        left := ForwardMessage(DecrementTTL(m), from, now);
      } else if m.ttl <= 0 && m.sender != Peer(me) {
        events := events + [Event(m, Dropped, from)];
      }
    }

    /** The automatic receipt for chat, file and sos messages addressed to us. */
    method Acknowledge(m: Message, env: Env)
      modifies this`sprayed, this`outbox, this`events
      ensures
        var e := AckEffect(old(State()), m, env);
        State() == e.state && outbox == old(outbox) + e.outs && events == old(events) + e.events
    {
      if m.recipient == Peer(me) && m.sender != Peer(me) {
        if m.typ == Chat || m.typ == File || m.typ == Sos {
          var ack := NewDeliveryAck(env.freshId, me, m.sender).(ttl := ACK_TTL);
          var _ := SendMessage(ack, env);
        }
      }
    }

    method PruneSeen()
      modifies this`seen
      ensures State() == old(State()).(seen := {})
    {
      seen := {};
    }

    method PruneSprayed()
      modifies this`sprayed
      ensures State() == old(State()).(sprayed := map[])
    {
      sprayed := map[];
    }

    method AddPeer(p: NodeId)
      modifies this`peers
      ensures State() == old(State()).(peers := old(peers) + {p})
    {
      if p !in peers {
        peers := peers + {p};
      }
    }

    method RemovePeer(p: NodeId)
      modifies this`peers
      ensures State() == old(State()).(peers := old(peers) - {p})
    {
      peers := peers - {p};
    }
  }

  lemma Regroup<T>(a: seq<T>, b: seq<T>, c: seq<T>)
    ensures (a + b) + c == a + (b + c)
  {
  }

  function Max0(n: int): int {
    if n <= 0 then 0 else n
  }

  /** An offer only adds to what was sent and reported before. */
  lemma OfferExtends(e: Effect, from: Option<NodeId>, myP: real, peer: NodeId)
    ensures
      var alone := OfferTo(Effect(e.state, [], [], e.msg), from, myP, peer);
      OfferTo(e, from, myP, peer) == Effect(alone.state, e.outs + alone.outs, e.events + alone.events, alone.msg)
  {
  }

  lemma RouteNext(s: NodeState, m: Message, from: Option<NodeId>, myP: real, cands: seq<NodeId>, k: nat)
    requires k < |cands|
    ensures Route(s, m, from, myP, cands[..k + 1]) == OfferTo(Route(s, m, from, myP, cands[..k]), from, myP, cands[k])
  {
    assert cands[..k + 1][..k] == cands[..k];
  }
}
