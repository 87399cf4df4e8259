/** The budget is documented as the number of physical copies of an addressed message that can exist at
    any time. That is so in every network exactly when the budget is 1. */
module BudgetClaim {
  import opened Prelude
  import opened Routing
  import opened Mesh
  import opened Network
  import opened RelayTermination
  import opened CopyPotential

  ghost function CopiesAfter(net: Net, first: Step, steps: seq<Step>, c: Case): nat
    requires WellFormed(net)
  {
    ApplyWellFormed(net, first);
    PhysicalCopies(After(Apply(net, first), steps), c)
  }

  /** In every network of nodes with this budget, in every run without dedup pruning, no more copies
      exist outside the destination than the budget says. */
  ghost predicate BudgetRespected(budget: nat) {
    forall net: Net, first: Step, steps: seq<Step>, c: Case ::
      c.budget == budget && Unseen(net, c) && FirstSend(first, net, c) && AllPermitted(steps, c) ==>
        CopiesAfter(net, first, steps, c) <= budget
  }

  function NonDst(cands: seq<NodeId>, dst: Party): nat {
    if cands == [] then 0
    else NonDst(cands[..|cands| - 1], dst) + if Peer(cands[|cands| - 1]) == dst then 0 else 1
  }

  lemma {:induction false} NonDstCount(cands: seq<NodeId>, dst: Party)
    requires Distinct(cands)
    ensures |cands| - 1 <= NonDst(cands, dst) <= |cands|
    ensures dst.Peer? && dst.id !in cands ==> NonDst(cands, dst) == |cands|
  {
    if cands != [] {
      var init, last := cands[..|cands| - 1], cands[|cands| - 1];
      NonDstCount(init, dst);
      assert last in cands && forall x :: x in init ==> x in cands;
      if Peer(last) == dst {
        assert last !in init;
      }
    }
  }

  /** With enough budget, every fresh candidate gets a copy, counted one higher each time. */
  lemma {:induction false} EveryCandidateServed(s: NodeState, m: Message, from: Option<NodeId>, myP: real,
                                                cands: seq<NodeId>, budget: nat)
    requires SpraysAll(s, budget) && 0.0 <= myP && Distinct(cands)
    requires forall p :: p in cands ==> p !in SprayedTo(s.sprayed, m.id)
    requires m.copiesMade + NonDst(cands, m.recipient) <= budget
    ensures
      var e := Route(s, m, from, myP, cands);
      && |e.outs| == |cands|
      && (forall i :: 0 <= i < |cands| ==> e.outs[i].Direct? && e.outs[i].to == cands[i] && e.outs[i].msg.id == m.id)
      && e.msg == m.(copiesMade := m.copiesMade + NonDst(cands, m.recipient))
      && e.state == s.(sprayed := e.state.sprayed)
      && (forall p :: p in SprayedTo(e.state.sprayed, m.id) ==> p in SprayedTo(s.sprayed, m.id) || p in cands)
      && (cands != [] && Peer(cands[0]) == m.recipient ==> e.outs[0].msg == m)
  {
    hide Route, NonDst, OfferTo, Distinct, SpraysAll;
    RouteNobody(s, m, from, myP);
    if cands != [] {
      var k := |cands| - 1;
      var init, peer := cands[..k], cands[k];
      DistinctInit(cands);
      NonDstSnoc(cands, m.recipient);
      assert peer in cands && forall p :: p in init ==> p in cands;
      EveryCandidateServed(s, m, from, myP, init, budget);
      RouteSnoc(s, m, from, myP, cands);
      var before := Route(s, m, from, myP, init);
      assert SpraysAll(before.state, budget) by { LedgerApart(s, before.state.sprayed, budget); }
      OfferServes(before, from, myP, peer, budget);
      assert k == 0 ==> init == [];
    }
  }

  /** Each copy is counted one higher than the last, but for the destination's. */
  lemma {:induction false} EveryCandidateCounted(s: NodeState, m: Message, from: Option<NodeId>, myP: real,
                                                 cands: seq<NodeId>, budget: nat)
    requires SpraysAll(s, budget) && 0.0 <= myP && Distinct(cands)
    requires forall p :: p in cands ==> p !in SprayedTo(s.sprayed, m.id)
    requires m.copiesMade + NonDst(cands, m.recipient) <= budget
    ensures
      var outs := Route(s, m, from, myP, cands).outs;
      && |outs| == |cands|
      && forall i :: 0 <= i < |cands| ==>
           outs[i] == Direct(cands[i], m.(copiesMade := m.copiesMade + NonDst(cands[..i + 1], m.recipient)))
  {
    hide Route, NonDst, OfferTo, Distinct, SpraysAll, SprayedTo;
    RouteNobody(s, m, from, myP);
    if cands != [] {
      var k := |cands| - 1;
      var init, peer := cands[..k], cands[k];
      DistinctInit(cands);
      NonDstSnoc(cands, m.recipient);
      assert peer in cands && forall p :: p in init ==> p in cands;
      EveryCandidateCounted(s, m, from, myP, init, budget);
      LastServed(s, m, from, myP, cands, budget);
      assert cands[..k + 1] == cands && forall j :: 0 <= j <= k ==> init[..j] == cands[..j];
    }
  }

  lemma LastServed(s: NodeState, m: Message, from: Option<NodeId>, myP: real, cands: seq<NodeId>, budget: nat)
    requires SpraysAll(s, budget) && 0.0 <= myP && Distinct(cands) && cands != []
    requires forall p :: p in cands ==> p !in SprayedTo(s.sprayed, m.id)
    requires m.copiesMade + NonDst(cands, m.recipient) <= budget
    ensures
      var before := Route(s, m, from, myP, cands[..|cands| - 1]);
      var after := Route(s, m, from, myP, cands);
      && after.outs == before.outs + [Direct(cands[|cands| - 1], after.msg)]
      && after.msg == m.(copiesMade := m.copiesMade + NonDst(cands, m.recipient))
  {
    hide Route, NonDst, OfferTo, Distinct, SpraysAll;
    var init, peer := cands[..|cands| - 1], cands[|cands| - 1];
    DistinctInit(cands);
    NonDstSnoc(cands, m.recipient);
    assert peer in cands && forall p :: p in init ==> p in cands;
    EveryCandidateServed(s, m, from, myP, init, budget);
    RouteSnoc(s, m, from, myP, cands);
    var before := Route(s, m, from, myP, init);
    LedgerApart(s, before.state.sprayed, budget);
    OfferServes(before, from, myP, peer, budget);
  }

  /** What was sprayed before is no part of spraying. */
  lemma LedgerApart(s: NodeState, sprayed: Ledger, budget: nat)
    requires SpraysAll(s, budget)
    ensures SpraysAll(s.(sprayed := sprayed), budget)
  {
  }

  lemma DistinctInit(s: seq<NodeId>)
    requires Distinct(s)
    ensures s != [] ==> Distinct(s[..|s| - 1]) && s[|s| - 1] !in s[..|s| - 1]
  {
  }

  lemma RouteNobody(s: NodeState, m: Message, from: Option<NodeId>, myP: real)
    ensures Route(s, m, from, myP, []) == Effect(s, [], [], m) && NonDst([], m.recipient) == 0
  {
  }

  /** A fresh candidate gets a copy while the budget lasts; only a non-destination's copy is counted. */
  lemma OfferServes(e: Effect, from: Option<NodeId>, myP: real, peer: NodeId, budget: nat)
    requires SpraysAll(e.state, budget) && 0.0 <= myP && peer !in SprayedTo(e.state.sprayed, e.msg.id)
    requires Peer(peer) == e.msg.recipient || e.msg.copiesMade < budget
    ensures
      var after := OfferTo(e, from, myP, peer);
      && after.msg == e.msg.(copiesMade := e.msg.copiesMade + if Peer(peer) == e.msg.recipient then 0 else 1)
      && after.outs == e.outs + [Direct(peer, after.msg)]
      && after.state == e.state.(sprayed := after.state.sprayed)
      && SprayedTo(after.state.sprayed, e.msg.id) == SprayedTo(e.state.sprayed, e.msg.id) + {peer}
  {
  }

  lemma SpraysForwarder(s: NodeState, budget: nat)
    requires SpraysAll(s, budget)
    ensures Sprays(s, budget) && ForwarderOf(s) == SprayAndWait(budget)
  {
  }

  lemma RouteSnoc(s: NodeState, m: Message, from: Option<NodeId>, myP: real, cands: seq<NodeId>)
    requires cands != []
    ensures Route(s, m, from, myP, cands)
              == OfferTo(Route(s, m, from, myP, cands[..|cands| - 1]), from, myP, cands[|cands| - 1])
  {
  }

  lemma NonDstSnoc(cands: seq<NodeId>, dst: Party)
    requires cands != []
    ensures NonDst(cands, dst) == NonDst(cands[..|cands| - 1], dst) + if Peer(cands[|cands| - 1]) == dst then 0 else 1
  {
  }

  /** Direct sends within the network become one flight each. */
  lemma {:induction false} DirectFlights(outs: seq<Out>, at: NodeId, listeners: seq<NodeId>, n: nat)
    requires forall i :: 0 <= i < |outs| ==> outs[i].Direct? && outs[i].to < n
    ensures
      var flights := Spread(outs, at, listeners, n);
      |flights| == |outs| && forall i :: 0 <= i < |outs| ==> flights[i] == Flight(outs[i].msg, at, outs[i].to)
  {
    if outs != [] {
      DirectFlights(outs[..|outs| - 1], at, listeners, n);
    }
  }

  lemma {:induction false} CountServed(flights: seq<Flight>, cands: seq<NodeId>, c: Case)
    requires |flights| == |cands|
    requires forall i :: 0 <= i < |cands| ==> flights[i].to == cands[i] && flights[i].msg.id == c.id
    ensures Total(flights, CopyCount(c)) == NonDst(cands, c.dst)
  {
    if cands != [] {
      CountServed(flights[..|flights| - 1], cands[..|cands| - 1], c);
    }
  }

  /** One routing pass by a node with fresh candidates. */
  lemma PassServes(s: NodeState, m: Message, from: Option<NodeId>, now: int, c: Case, listeners: seq<NodeId>, n: nat)
    requires SpraysAll(s, c.budget) && m.recipient == c.dst && m.id == c.id
    requires m.id !in s.sprayed && forall p :: p in s.peers ==> p < n
    requires m.copiesMade + NonDst(Candidates(s, from), c.dst) <= c.budget
    ensures
      var e := RouteToPeers(s, m, from, now);
      var flights := Spread(e.outs, s.me, listeners, n);
      && Total(flights, CopyCount(c)) == NonDst(Candidates(s, from), c.dst)
      && |flights| == |Eligible(s, from)|
      && (Eligible(s, from) != {} && Peer(Least(Eligible(s, from))) == c.dst ==>
            flights[0] == Flight(m, s.me, Least(Eligible(s, from))))
  {
    hide StatForDestination, Total, Ascending, NonDst, Route, Spread, SpraysAll, CopyCount;
    var cands := Candidates(s, from);
    assert Sprays(s, c.budget) by { SpraysForwarder(s, c.budget); }
    NoHandoff(s, c.budget, m.recipient, m.copiesMade, 0, now, false);
    hide Sprays;
    EveryCandidateServed(s, m, from, StatForDestination(s.encounters, m.recipient, now), cands, c.budget);
    var outs := RouteToPeers(s, m, from, now).outs;
    assert forall i :: 0 <= i < |cands| ==> cands[i] in cands;
    DirectFlights(outs, s.me, listeners, n);
    CountServed(Spread(outs, s.me, listeners, n), cands, c);
  }

  // -------------------------------------------- a network that exceeds it

  /** The nodes lo..hi-1. */
  function Between(lo: nat, hi: nat): (s: set<NodeId>)
    requires lo <= hi
    ensures |s| == hi - lo && forall i: nat :: i in s <==> lo <= i < hi
    decreases hi - lo
  {
    if lo == hi then {} else Between(lo, hi - 1) + {hi - 1}
  }

  /** Node 1 sends to node 0; each knows budget - 1 other nodes that the other does not. */
  function Peers(budget: nat, i: nat): set<NodeId>
    requires budget >= 2
  {
    if i == 1 then {0} + Between(2, budget + 1)
    else if i == 0 then {1} + Between(budget + 1, 2 * budget)
    else {}
  }

  function Idle(budget: nat, i: nat): NodeState
    requires budget >= 2
  {
    NodeState(i, Peers(budget, i), {}, map[], map[], budget, Some(SprayAndWait(budget)))
  }

  function TwoStars(budget: nat): Net
    requires budget >= 2
  {
    Net(seq(2 * budget, i requires 0 <= i < 2 * budget => Idle(budget, i)), [])
  }

  const NOTE := Message("m", Chat, Peer(1), Peer(0), 16, 0, 1, "")
  const NO_DIRECT := Env(0, false, "ack")

  function StarCase(budget: nat): Case {
    Case("m", Peer(0), 1, budget)
  }

  lemma TwoStarsUnseen(budget: nat)
    requires budget >= 2
    ensures Unseen(TwoStars(budget), StarCase(budget))
    ensures FirstSend(Send(1, NOTE, NO_DIRECT, []), TwoStars(budget), StarCase(budget))
  {
  }

  /** Sending puts budget - 1 copies in flight beside the one to the destination. */
  lemma AfterSend(budget: nat)
    requires budget >= 2
    ensures WellFormed(TwoStars(budget))
    ensures
      var c := StarCase(budget);
      var sent := Apply(TwoStars(budget), Send(1, NOTE, NO_DIRECT, []));
      && |sent.nodes| == 2 * budget && sent.nodes[0] == Idle(budget, 0)
      && |sent.flights| == budget && sent.flights[0] == Flight(NOTE, 1, 0)
      && Total(sent.flights, CopyCount(c)) == budget - 1
  {
    hide Total, RouteToPeers, Spread, Candidates, NonDst, Eligible, Between;
    var c, s, n := StarCase(budget), Idle(budget, 1), 2 * budget;
    SenderCandidates(budget);
    PassServes(s, NOTE, None, 0, c, [], n);
    assert NOTE.(copiesMade := 1) == NOTE;
    var flights := Spread(RouteToPeers(s, NOTE, None, 0).outs, 1, [], n);
    assert [] + flights == flights;
    assert Apply(TwoStars(budget), Send(1, NOTE, NO_DIRECT, [])).flights == flights;
  }

  lemma SenderCandidates(budget: nat)
    requires budget >= 2
    ensures
      var s := Idle(budget, 1);
      && |Eligible(s, None)| == budget && Eligible(s, None) != {} && Least(Eligible(s, None)) == 0
      && NonDst(Candidates(s, None), Peer(0)) == budget - 1
      && forall p :: p in s.peers ==> p < 2 * budget
  {
    hide NonDst, Ascending, Between;
    var eligible := Eligible(Idle(budget, 1), None);
    assert eligible == {0} + Between(2, budget + 1);
    NonDstLeast(eligible, Peer(0));
  }

  lemma DestinationCandidates(budget: nat)
    requires budget >= 2
    ensures
      var s := Noted(Idle(budget, 0), NOTE, Some(1), 0);
      && NonDst(Candidates(s, Some(1)), Peer(0)) == budget - 1
      && forall p :: p in s.peers ==> p < 2 * budget
  {
    hide NonDst, Ascending, Between, Recorded;
    var s := Noted(Idle(budget, 0), NOTE, Some(1), 0);
    assert Eligible(s, Some(1)) == Between(budget + 1, 2 * budget);
    NonDstCount(Candidates(s, Some(1)), Peer(0));
  }

  lemma NonDstLeast(s: set<NodeId>, dst: Party)
    requires dst.Peer? && dst.id in s
    ensures NonDst(Ascending(s), dst) == |s| - 1
  {
    hide Ascending;
    var r := Ascending(s);
    var i :| 0 <= i < |r| && r[i] == dst.id;
    NonDstMissesOne(r, dst, i);
  }

  lemma {:induction false} NonDstMissesOne(r: seq<NodeId>, dst: Party, i: nat)
    requires Distinct(r) && i < |r| && Peer(r[i]) == dst
    ensures NonDst(r, dst) == |r| - 1
  {
    var k := |r| - 1;
    if i == k {
      assert dst.id !in r[..k];
      NonDstCount(r[..k], dst);
    } else {
      NonDstMissesOne(r[..k], dst, i);
    }
  }

  /** The destination then sprays budget - 1 copies of its own. */
  lemma AfterArrival(budget: nat)
    requires budget >= 2
    ensures WellFormed(TwoStars(budget))
    ensures
      var c := StarCase(budget);
      CopiesAfter(TwoStars(budget), Send(1, NOTE, NO_DIRECT, []), [Arrive(0, NO_DIRECT, [])], c) == 2 * budget - 1
  {
    hide Total, RouteToPeers, Spread, SendEffect, Recorded;
    var c, n := StarCase(budget), 2 * budget;
    var first, step := Send(1, NOTE, NO_DIRECT, []), Arrive(0, NO_DIRECT, []);
    AfterSend(budget);
    TwoStarsUnseen(budget);
    StartPotential(TwoStars(budget), first, c);
    var sent := Apply(TwoStars(budget), first);
    OneStep(sent, step);
    DestinationSprays(budget);
    var noted := Noted(Idle(budget, 0), NOTE, Some(1), 0);
    var relay := RelayEffect(noted, NOTE, Some(1), 0);
    var ack := AckEffect(relay.state, NOTE, NO_DIRECT);
    var w := CopyCount(c);
    SpreadAppend(relay.outs, ack.outs, 0, [], n);
    TotalAppend(Spread(relay.outs, 0, [], n), Spread(ack.outs, 0, [], n), w);
    TotalAppend(Without(sent.flights, 0), Spread(relay.outs + ack.outs, 0, [], n), w);
    TotalWithout(sent.flights, 0, w);
    AckOuts(relay.state, NOTE, NO_DIRECT);
    OtherOuts(ack.outs, AckFor(relay.state, NOTE, NO_DIRECT), c, 0, [], n);
    CountBelowWeight(Spread(ack.outs, 0, [], n), c);
    ApplyWellFormed(sent, step);
    HoldersAre(budget, Apply(sent, step));
  }

  lemma OneStep(net: Net, step: Step)
    requires WellFormed(net)
    ensures After(net, [step]) == Apply(net, step)
  {
    hide Apply;
    assert [step][..0] == [];
    assert After(net, [step][..0]) == net;
  }

  lemma DestinationSprays(budget: nat)
    requires budget >= 2
    ensures
      var noted := Noted(Idle(budget, 0), NOTE, Some(1), 0);
      Total(Spread(RelayEffect(noted, NOTE, Some(1), 0).outs, 0, [], 2 * budget), CopyCount(StarCase(budget)))
        == budget - 1
  {
    hide Total, RouteToPeers, Spread, Recorded, Candidates, NonDst, Between;
    var c, s := StarCase(budget), Noted(Idle(budget, 0), NOTE, Some(1), 0);
    SpraysAfterNoting(Idle(budget, 0), NOTE, Some(1), 0, budget);
    DestinationCandidates(budget);
    PassServes(s, DecrementTTL(NOTE), Some(1), 0, c, [], 2 * budget);
  }

  lemma HoldersAre(budget: nat, net: Net)
    requires budget >= 2 && |net.nodes| == 2 * budget
    requires forall u :: 1 < u < |net.nodes| ==> net.nodes[u].seen == {}
    ensures Holders(net, StarCase(budget)) == {1}
  {
  }

  /** The documented bound holds in all networks exactly for budget 1. */
  lemma BudgetHoldsExactly(budget: nat)
    requires budget >= 1
    ensures BudgetRespected(budget) <==> budget == 1
  {
    hide CopiesAfter, FirstSend, AllPermitted, StarCase, TwoStars;
    if budget == 1 {
      forall net: Net, first: Step, steps: seq<Step>, c: Case
        | c.budget == budget && Unseen(net, c) && FirstSend(first, net, c) && AllPermitted(steps, c)
        ensures CopiesAfter(net, first, steps, c) <= budget
      {
        BudgetOne(net, first, steps, c);
      }
    } else if BudgetRespected(budget) {
      Exceeds(budget);
    }
  }

  lemma BudgetOne(net: Net, first: Step, steps: seq<Step>, c: Case)
    requires c.budget == 1 && Unseen(net, c) && FirstSend(first, net, c) && AllPermitted(steps, c)
    ensures CopiesAfter(net, first, steps, c) <= 1
  {
    CopyBound(net, first, steps, c);
    assert Power(2, 1) == 2 * Power(2, 0);
  }

  lemma Exceeds(budget: nat)
    requires budget >= 2
    ensures !BudgetRespected(budget)
  {
    hide CopiesAfter, Unseen, TwoStars;
    AfterArrival(budget);
    TwoStarsUnseen(budget);
    assert AllPermitted([Arrive(0, NO_DIRECT, [])], StarCase(budget));
  }
}
