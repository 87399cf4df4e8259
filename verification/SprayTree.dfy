/** The bound on the copies of an addressed message is attained, for every budget: in a network shaped like
    a binomial tree, where every copy finds as many fresh peers as its count leaves it. The kids of node x
    of 2^L are x - 1, x - 2, x - 4, ... as far as its binary form ends in ones; a node and its kids know each
    other. */
module SprayTree {
  import opened Prelude
  import opened Routing
  import opened Mesh
  import opened Network
  import opened RelayTermination
  import opened CopyPotential
  import opened BudgetClaim

  // ------------------------------------------------------------------ the tree

  /** The ones at the end of the binary form: how many kids a node has. */
  function Rank(x: nat): nat {
    if x % 2 == 1 then 1 + Rank(x / 2) else 0
  }

  /** The k-th kid: x - 2^k, for k below the rank. */
  function Kid(x: nat, k: nat): nat {
    if Power(2, k) <= x then x - Power(2, k) else 0
  }

  function Parent(x: nat): nat {
    x + Power(2, Rank(x))
  }

  lemma {:induction false} KidOf(x: nat, k: nat)
    requires k < Rank(x)
    ensures Power(2, k) <= x && Rank(Kid(x, k)) == k && Parent(Kid(x, k)) == x && Kid(x, k) < x
    decreases k
  {
    PowerPositive(2, k);
    if k > 0 {
      KidOf(x / 2, k - 1);
      assert x == 2 * (x / 2) + 1;
      assert Power(2, k) == 2 * Power(2, k - 1);
      assert Kid(x, k) == 2 * Kid(x / 2, k - 1) + 1;
      assert Kid(x, k) / 2 == Kid(x / 2, k - 1);
    }
  }

  /** Every node but the last is a kid of its parent. */
  lemma {:induction false} ParentOf(y: nat, budget: nat)
    requires y < Power(2, budget) - 1
    ensures y < Parent(y) < Power(2, budget)
    ensures Rank(y) < Rank(Parent(y)) && Kid(Parent(y), Rank(y)) == y
    decreases y
  {
    PowerPositive(2, Rank(y));
    PowerHalves(budget);
    if y % 2 == 1 {
      ParentOf(y / 2, budget - 1);
      PowerHalves(Rank(y));
      hide Power;
      assert Parent(y) == 2 * Parent(y / 2) + 1;
      assert Parent(y) / 2 == Parent(y / 2);
      assert Rank(Parent(y)) == 1 + Rank(Parent(y / 2));
    }
  }

  lemma PowerHalves(e: nat)
    ensures Power(2, e) == if e == 0 then 1 else 2 * Power(2, e - 1)
  {
  }

  lemma {:induction false} LastRank(budget: nat)
    ensures Power(2, budget) >= 1 && Rank(Power(2, budget) - 1) == budget
  {
    if budget > 0 {
      LastRank(budget - 1);
      assert (Power(2, budget) - 1) / 2 == Power(2, budget - 1) - 1;
    }
  }

  lemma {:induction false} PowerIncreases(a: nat, b: nat)
    requires a < b
    ensures Power(2, a) < Power(2, b)
  {
    PowerPositive(2, b - 1);
    if a < b - 1 {
      PowerIncreases(a, b - 1);
    }
  }

  /** A node's kids, in ascending order: the first will count fewest copies and can make most. */
  function Kids(x: nat): seq<NodeId> {
    seq(Rank(x), i requires 0 <= i < Rank(x) => Kid(x, Rank(x) - 1 - i))
  }

  predicate Rising(s: seq<NodeId>) {
    forall i, j :: 0 <= i < j < |s| ==> s[i] < s[j]
  }

  lemma KidsRise(x: nat)
    ensures Rising(Kids(x)) && forall y :: y in Kids(x) ==> y < x && Parent(y) == x
  {
    hide Rank, Parent, Kid;
    var r := Rank(x);
    forall i, j | 0 <= i < j < r
      ensures Kids(x)[i] < Kids(x)[j]
    {
      KidsFall(x, r - 1 - j, r - 1 - i);
    }
    forall y | y in Kids(x)
      ensures y < x && Parent(y) == x
    {
      var i :| 0 <= i < r && Kids(x)[i] == y;
      KidOf(x, r - 1 - i);
    }
  }

  lemma KidsFall(x: nat, k: nat, l: nat)
    requires k < l < Rank(x)
    ensures Kid(x, l) < Kid(x, k)
  {
    KidOf(x, k);
    KidOf(x, l);
    PowerIncreases(k, l);
  }

  /** The ascending order of a set is its only rising sequence. */
  lemma {:induction false} RisingIsAscending(s: set<NodeId>, r: seq<NodeId>)
    requires Rising(r) && forall x :: x in r <==> x in s
    ensures Ascending(s) == r
    decreases |r|
  {
    hide Least, Ascending, Rising;
    AscendingStep(s);
    if r == [] {
      assert s == {};
    } else {
      FirstIsLeast(s, r);
      RestRises(s, r);
      RisingIsAscending(s - {r[0]}, r[1..]);
      assert [r[0]] + r[1..] == r;
    }
  }

  lemma AscendingStep(s: set<NodeId>)
    ensures Ascending(s) == if s == {} then [] else [Least(s)] + Ascending(s - {Least(s)})
  {
  }

  lemma FirstIsLeast(s: set<NodeId>, r: seq<NodeId>)
    requires Rising(r) && r != [] && forall x :: x in r <==> x in s
    ensures s != {} && Least(s) == r[0]
  {
    assert r[0] in s;
    var x := Least(s);
    assert x in r && x <= r[0];
  }

  lemma RestRises(s: set<NodeId>, r: seq<NodeId>)
    requires Rising(r) && r != [] && forall x :: x in r <==> x in s
    ensures Rising(r[1..]) && forall x :: x in r[1..] <==> x in s - {r[0]}
  {
    assert r == [r[0]] + r[1..];
    assert forall i :: 0 <= i < |r| - 1 ==> r[1..][i] == r[i + 1] && r[0] < r[i + 1];
  }

  // --------------------------------------------------------------- the network

  /** The last node: it has the most kids, and sends the message. */
  function Root(budget: nat): nat {
    PowerAtLeastOne(2, budget) - 1
  }

  /** The destination is the root's first kid. */
  function Target(budget: nat): nat
    requires budget >= 1
  {
    Root(budget - 1)
  }

  function KidSet(x: nat): set<NodeId> {
    set y | y in Kids(x)
  }

  /** A node knows its kids and, but for the root, its parent. */
  function PeerSet(budget: nat, x: nat): set<NodeId> {
    KidSet(x) + if x == Root(budget) then {} else {Parent(x)}
  }

  /** Knowing each other is mutual. */
  lemma PeersMutual(budget: nat, x: nat, y: nat)
    requires x < Power(2, budget) && y < Power(2, budget)
    ensures y in PeerSet(budget, x) <==> x in PeerSet(budget, y)
  {
    hide Kids, Kid, Parent, Rank;
    KidOrParent(budget, x, y);
    KidOrParent(budget, y, x);
  }

  lemma KidOrParent(budget: nat, x: nat, y: nat)
    requires x < Power(2, budget) && y < Power(2, budget)
    ensures y in Kids(x) <==> y != Root(budget) && Parent(y) == x
  {
    hide Rank, Parent, Kid, Rising;
    KidsRise(x);
    if y != Root(budget) && Parent(y) == x {
      ParentOf(y, budget);
      assert Kids(x)[Rank(x) - 1 - Rank(y)] == y;
    }
  }

  function TreeNode(budget: nat, x: nat): NodeState {
    NodeState(x, PeerSet(budget, x), {}, map[], map[], budget, Some(SprayAndWait(budget)))
  }

  function Tree(budget: nat): Net {
    Net(seq(Power(2, budget), x requires 0 <= x < Power(2, budget) => TreeNode(budget, x)), [])
  }

  function News(budget: nat, ttl: nat): Message
    requires budget >= 1
  {
    Message("m", KeyExchange, Peer(Root(budget)), Peer(Target(budget)), ttl, 0, 0, "")
  }

  function TreeCase(budget: nat): Case
    requires budget >= 1
  {
    Case("m", Peer(Target(budget)), Root(budget), budget)
  }

  const QUIET := Env(0, false, "receipt")

  function TreeSend(budget: nat, ttl: nat): Step
    requires budget >= 1
  {
    Send(Root(budget), News(budget, ttl), QUIET, [])
  }

  predicate Reached(net: Net, budget: nat, x: nat) {
    x == Root(budget) || (x < |net.nodes| && "m" in net.nodes[x].seen)
  }

  predicate Coming(net: Net, y: nat) {
    exists i :: 0 <= i < |net.flights| && net.flights[i].to == y
  }

  /** A copy on its way down the tree, with enough budget and time to live left for all below. */
  predicate Descending(fl: Flight, budget: nat)
    requires budget >= 1
  {
    && fl.to < Root(budget) && fl.from == Parent(fl.to)
    && fl.msg == News(budget, 0).(ttl := fl.msg.ttl, hopCount := fl.msg.hopCount, copiesMade := fl.msg.copiesMade)
    && fl.msg.copiesMade + Rank(fl.to) == budget && fl.msg.ttl >= Rank(fl.to)
  }

  /** Whoever has been reached has served its kids; the others are as they were. */
  ghost predicate Growing(net: Net, budget: nat)
    requires budget >= 1
  {
    && WellFormed(net) && |net.nodes| == Power(2, budget)
    && (forall x: nat :: x < Root(budget) && !Reached(net, budget, x) ==> net.nodes[x] == TreeNode(budget, x))
    && (forall x: nat :: x < Root(budget) && Reached(net, budget, x) ==> Reached(net, budget, Parent(x)))
    && (forall i :: 0 <= i < |net.flights| ==>
          Descending(net.flights[i], budget) && !Reached(net, budget, net.flights[i].to)
          && Reached(net, budget, net.flights[i].from))
    && (forall i, j :: 0 <= i < j < |net.flights| ==> net.flights[i].to != net.flights[j].to)
    && (forall y: nat :: y < Root(budget) && Reached(net, budget, Parent(y)) ==> Reached(net, budget, y) || Coming(net, y))
  }

  // ------------------------------------------------------------- one node's pass

  /** With the budget spent, nobody but the destination gets a copy. */
  lemma BudgetSpent(e: Effect, from: Option<NodeId>, myP: real, peer: NodeId, budget: nat)
    requires ForwarderOf(e.state) == SprayAndWait(budget) && e.msg.copiesMade >= budget
    requires Peer(peer) != e.msg.recipient && 0.0 <= myP
    ensures OfferTo(e, from, myP, peer) == e
  {
  }

  /** A node whose budget just covers its kids hands each a copy, and a further candidate none. */
  lemma KidsServed(s: NodeState, m: Message, from: Option<NodeId>, now: int, budget: nat, kids: seq<NodeId>, tail: seq<NodeId>)
    requires SpraysAll(s, budget) && m.id !in s.sprayed && Rising(kids) && Candidates(s, from) == kids + tail
    requires |tail| <= 1 && forall p :: p in tail ==> Peer(p) != m.recipient
    requires m.copiesMade + NonDst(kids, m.recipient) == budget
    ensures
      var outs := RouteToPeers(s, m, from, now).outs;
      && |outs| == |kids|
      && forall i :: 0 <= i < |kids| ==>
           outs[i] == Direct(kids[i], m.(copiesMade := m.copiesMade + NonDst(kids[..i + 1], m.recipient)))
  {
    hide Route, NonDst, Candidates, StatForDestination, OfferTo, Rising, SpraysAll;
    var myP := StatForDestination(s.encounters, m.recipient, now);
    assert Distinct(kids) by { RisingIsDistinct(kids); }
    SpraysForwarder(s, budget);
    NoHandoff(s, budget, m.recipient, m.copiesMade, 0, now, false);
    EveryCandidateServed(s, m, from, myP, kids, budget);
    EveryCandidateCounted(s, m, from, myP, kids, budget);
    if tail == [] {
      assert kids + tail == kids;
    } else {
      RouteSnoc(s, m, from, myP, kids + tail);
      assert (kids + tail)[..|kids + tail| - 1] == kids;
      BudgetSpent(Route(s, m, from, myP, kids), from, myP, tail[0], budget);
    }
  }

  lemma RisingIsDistinct(s: seq<NodeId>)
    requires Rising(s)
    ensures Distinct(s)
  {
  }

  lemma KidsCounted(kids: seq<NodeId>, dst: Party, j: nat)
    requires Rising(kids) && j <= |kids| && dst.Peer?
    ensures dst.id !in kids ==> NonDst(kids[..j], dst) == j
    ensures kids != [] && kids[0] == dst.id && j >= 1 ==> NonDst(kids[..j], dst) == j - 1
  {
    hide NonDst;
    if dst.id !in kids {
      NonDstCount(kids[..j], dst);
    }
    if kids != [] && kids[0] == dst.id && j >= 1 {
      NonDstMissesOne(kids[..j], dst, 0);
    }
  }

  lemma RootCandidates(budget: nat)
    requires budget >= 1
    ensures Candidates(TreeNode(budget, Root(budget)), None) == Kids(Root(budget))
    ensures |Kids(Root(budget))| == budget && Kids(Root(budget))[0] == Target(budget)
  {
    hide Ascending, Kids;
    var x := Root(budget);
    KidsRise(x);
    LastRank(budget);
    assert Eligible(TreeNode(budget, x), None) == KidSet(x);
    RisingIsAscending(KidSet(x), Kids(x));
    FirstKid(budget);
  }

  lemma FirstKid(budget: nat)
    requires budget >= 1
    ensures |Kids(Root(budget))| == budget && Kids(Root(budget))[0] == Target(budget)
  {
    LastRank(budget);
    PowerPositive(2, budget - 1);
    var x := Root(budget);
    assert Rank(x) == budget && Kids(x)[0] == Kid(x, budget - 1);
    assert Power(2, budget) == 2 * Power(2, budget - 1);
  }

  /** A node that relays considers its kids, and after them the sender; its parent is the previous hop. */
  lemma RelayCandidates(budget: nat, v: nat, m: Message, from: NodeId)
    requires v < Root(budget) && m.sender == Peer(Root(budget)) && from == Parent(v) > v
    ensures
      var s := Noted(TreeNode(budget, v), m, Some(from), 0);
      Candidates(s, Some(from)) == Kids(v) + if from == Root(budget) then [] else [Root(budget)]
  {
    hide Ascending, Kids, Recorded, Rising, Parent;
    KidsRise(v);
    var s, root := Noted(TreeNode(budget, v), m, Some(from), 0), Root(budget);
    assert s.peers == KidSet(v) + {Parent(v), root};
    RisingEnds(Kids(v), root);
    if from == root {
      assert Kids(v) + [] == Kids(v);
      assert forall x :: x in Kids(v) <==> x in Eligible(s, Some(from));
      RisingIsAscending(Eligible(s, Some(from)), Kids(v));
    } else {
      assert forall x :: x in Kids(v) + [root] <==> x in Eligible(s, Some(from));
      RisingIsAscending(Eligible(s, Some(from)), Kids(v) + [root]);
    }
  }

  lemma RisingEnds(s: seq<NodeId>, last: NodeId)
    requires Rising(s) && forall x :: x in s ==> x < last
    ensures Rising(s + [last])
  {
    assert forall i :: 0 <= i < |s| ==> s[i] in s;
  }

  /** The flights of one pass: one to each kid, each with one more copy counted. */
  predicate Served(flights: seq<Flight>, m: Message, v: nat, counted: int) {
    && |flights| == |Kids(v)|
    && forall i :: 0 <= i < |flights| ==>
         flights[i] == Flight(m.(copiesMade := counted + i), v, Kids(v)[i])
  }

  lemma ServedFlights(outs: seq<Out>, m: Message, v: nat, counted: int, n: nat)
    requires v < n && |outs| == |Kids(v)|
    requires forall i :: 0 <= i < |outs| ==> outs[i] == Direct(Kids(v)[i], m.(copiesMade := counted + i))
    ensures Served(Spread(outs, v, [], n), m, v, counted)
  {
    hide Kids, Spread;
    KidsRise(v);
    assert forall i :: 0 <= i < |outs| ==> Kids(v)[i] in Kids(v);
    DirectFlights(outs, v, [], n);
  }

  /** What the root sends: the first copy, to the destination, counts one. */
  lemma RootServes(budget: nat, ttl: nat)
    requires budget >= 1
    ensures
      var e := SendEffect(TreeNode(budget, Root(budget)), News(budget, ttl), QUIET);
      Served(Spread(e.outs, Root(budget), [], Power(2, budget)), News(budget, ttl), Root(budget), 1)
  {
    hide SendEffect, RouteToPeers, Kids, Spread;
    RootRoutes(budget, ttl);
    RootOuts(budget, ttl);
    ServedFlights(RouteToPeers(TreeNode(budget, Root(budget)), Counted(budget, ttl), None, 0).outs,
                  News(budget, ttl), Root(budget), 1, Power(2, budget));
  }

  /** The message with the original counted. */
  function Counted(budget: nat, ttl: nat): Message
    requires budget >= 1
  {
    News(budget, ttl).(copiesMade := 1)
  }

  lemma RootRoutes(budget: nat, ttl: nat)
    requires budget >= 1
    ensures SendEffect(TreeNode(budget, Root(budget)), News(budget, ttl), QUIET).outs
              == RouteToPeers(TreeNode(budget, Root(budget)), Counted(budget, ttl), None, 0).outs
  {
    hide RouteToPeers, Kids;
  }

  lemma RootOuts(budget: nat, ttl: nat)
    requires budget >= 1
    ensures
      var x := Root(budget);
      var outs := RouteToPeers(TreeNode(budget, x), Counted(budget, ttl), None, 0).outs;
      && |outs| == |Kids(x)|
      && forall i :: 0 <= i < |outs| ==> outs[i] == Direct(Kids(x)[i], News(budget, ttl).(copiesMade := 1 + i))
  {
    hide RouteToPeers, Candidates, Kids, NonDst, Rising;
    var x, m := Root(budget), Counted(budget, ttl);
    var kids, dst := Kids(x), m.recipient;
    RootCandidates(budget);
    KidsRise(x);
    KidsCounted(kids, dst, |kids|);
    assert kids[..|kids|] == kids && kids + [] == kids;
    KidsServed(TreeNode(budget, x), m, None, 0, budget, kids, []);
    forall j | 1 <= j <= |kids|
      ensures NonDst(kids[..j], dst) == j - 1
    {
      KidsCounted(kids, dst, j);
    }
  }

  /** What a node passes on when a copy first reaches it. */
  lemma NodeServes(budget: nat, fl: Flight)
    requires budget >= 1 && Descending(fl, budget)
    ensures
      var e := DeliverEffect(TreeNode(budget, fl.to), fl.msg, Some(fl.from), QUIET);
      Served(Spread(e.outs, fl.to, [], Power(2, budget)), DecrementTTL(fl.msg), fl.to, fl.msg.copiesMade + 1)
  {
    hide RouteToPeers, Candidates, Kids, Spread, NonDst, Rising, Recorded;
    var v, next := fl.to, DecrementTTL(fl.msg);
    var s := Noted(TreeNode(budget, v), fl.msg, Some(fl.from), 0);
    RankCounts(v);
    ParentOf(v, budget);
    if fl.msg.ttl > 0 {
      var kids := Kids(v);
      KidsRise(v);
      SpraysAfterNoting(TreeNode(budget, v), fl.msg, Some(fl.from), 0, budget);
      RelayCandidates(budget, v, fl.msg, fl.from);
      TargetNotBelow(budget, v);
      KidsCounted(kids, next.recipient, |kids|);
      assert kids[..|kids|] == kids;
      RootNotTarget(budget);
      KidsServed(s, next, Some(fl.from), 0, budget, kids, if fl.from == Root(budget) then [] else [Root(budget)]);
      forall j | 0 <= j <= |kids|
        ensures NonDst(kids[..j], next.recipient) == j
      {
        KidsCounted(kids, next.recipient, j);
      }
      var outs := RouteToPeers(s, next, Some(fl.from), 0).outs;
      ServedFlights(outs, next, v, fl.msg.copiesMade + 1, Power(2, budget));
      assert DeliverEffect(TreeNode(budget, v), fl.msg, Some(fl.from), QUIET).outs == outs + [];
      assert outs + [] == outs;
    } else {
      ServedFlights([], next, v, fl.msg.copiesMade + 1, Power(2, budget));
      assert DeliverEffect(TreeNode(budget, v), fl.msg, Some(fl.from), QUIET).outs == [];
    }
  }

  lemma RankCounts(v: nat)
    ensures |Kids(v)| == Rank(v)
  {
  }

  /** The destination is nobody's kid but the root's. */
  lemma TargetNotBelow(budget: nat, v: nat)
    requires budget >= 1 && v < Root(budget)
    ensures Target(budget) !in Kids(v)
  {
    hide Kids, Rank, Parent;
    KidsRise(v);
    KidsRise(Root(budget));
    FirstKid(budget);
    assert Kids(Root(budget))[0] in Kids(Root(budget));
  }

  lemma RootNotTarget(budget: nat)
    requires budget >= 1
    ensures Target(budget) < Root(budget)
  {
    PowerIncreases(budget - 1, budget);
  }

  /** The copies of a pass are on their way as they should be. */
  lemma ServedDescend(flights: seq<Flight>, m: Message, v: nat, counted: int, budget: nat)
    requires budget >= 1 && v <= Root(budget) && Served(flights, m, v, counted)
    requires m == News(budget, 0).(ttl := m.ttl, hopCount := m.hopCount, copiesMade := m.copiesMade)
    requires counted + Rank(v) == budget + 1 && m.ttl >= Rank(v) - 1
    ensures forall i :: 0 <= i < |flights| ==> Descending(flights[i], budget)
    ensures forall i, j :: 0 <= i < j < |flights| ==> flights[i].to != flights[j].to
    ensures forall i :: 0 <= i < |flights| ==> flights[i].from == v && flights[i].to < v && Parent(flights[i].to) == v
    ensures forall y: nat :: y < Root(budget) && Parent(y) == v ==> exists i :: 0 <= i < |flights| && flights[i].to == y
  {
    hide Rank, Parent, Kid, Rising;
    var r := Rank(v);
    KidsRise(v);
    assert Distinct(Kids(v)) by { RisingIsDistinct(Kids(v)); }
    forall i | 0 <= i < |flights|
      ensures Descending(flights[i], budget) && flights[i].to < v
    {
      assert Kids(v)[i] == Kid(v, r - 1 - i);
      KidOf(v, r - 1 - i);
    }
    forall y: nat | y < Root(budget) && Parent(y) == v
      ensures exists i :: 0 <= i < |flights| && flights[i].to == y
    {
      ParentOf(y, budget);
      assert Kids(v)[r - 1 - Rank(y)] == y;
      assert flights[r - 1 - Rank(y)].to == y;
    }
  }

  // ------------------------------------------------------------------ the run

  /** What a pass of node v adds to the flights. */
  ghost predicate Branches(more: seq<Flight>, v: nat, budget: nat)
    requires budget >= 1
  {
    && (forall i :: 0 <= i < |more| ==> Descending(more[i], budget) && more[i].from == v && more[i].to < v)
    && (forall i, j :: 0 <= i < j < |more| ==> more[i].to != more[j].to)
    && (forall y: nat :: y < Root(budget) && Parent(y) == v ==> exists i :: 0 <= i < |more| && more[i].to == y)
  }

  lemma GrowStart(budget: nat, ttl: nat)
    requires budget >= 1 && ttl >= budget - 1
    ensures WellFormed(Tree(budget)) && Growing(Apply(Tree(budget), TreeSend(budget, ttl)), budget)
  {
    hide SendEffect, Spread, Branches, Growing, Served, TreeNode, Power;
    var x, net, m := Root(budget), Tree(budget), News(budget, ttl);
    assert WellFormed(net) && net.nodes[x] == TreeNode(budget, x) by { TreeWellFormed(budget); }
    var after := Apply(net, TreeSend(budget, ttl));
    var sent := Spread(SendEffect(TreeNode(budget, x), m, QUIET).outs, x, [], Power(2, budget));
    ApplyWellFormed(net, TreeSend(budget, ttl));
    SendOuts(net.nodes[x], m, QUIET);
    RootServes(budget, ttl);
    assert Branches(sent, x, budget) by { RootBranches(budget, ttl, sent); }
    assert after.flights == sent by { assert [] + sent == sent; }
    GrowFromRoot(budget, after);
  }

  lemma TreeWellFormed(budget: nat)
    ensures WellFormed(Tree(budget)) && Root(budget) < Power(2, budget)
    ensures Tree(budget).nodes[Root(budget)] == TreeNode(budget, Root(budget))
  {
    hide PeerSet;
  }

  lemma RootBranches(budget: nat, ttl: nat, sent: seq<Flight>)
    requires budget >= 1 && ttl >= budget - 1 && Served(sent, News(budget, ttl), Root(budget), 1)
    ensures Branches(sent, Root(budget), budget)
  {
    hide Kids, Parent, Kid;
    LastRank(budget);
    hide Rank;
    ServedDescend(sent, News(budget, ttl), Root(budget), 1, budget);
  }

  lemma GrowFromRoot(budget: nat, after: Net)
    requires budget >= 1 && WellFormed(after) && |after.nodes| == Power(2, budget)
    requires forall x: nat :: x < Root(budget) ==> after.nodes[x] == TreeNode(budget, x)
    requires Branches(after.flights, Root(budget), budget)
    ensures Growing(after, budget)
  {
    hide Parent, Rank, PeerSet, Descending;
    assert forall x: nat :: Reached(after, budget, x) <==> x == Root(budget);
  }

  /** One copy handled, one more node reached. */
  lemma GrowStep(net: Net, budget: nat)
    requires budget >= 1 && Growing(net, budget) && net.flights != []
    ensures Growing(Apply(net, Arrive(0, QUIET, [])), budget)
    ensures forall x: nat :: Reached(Apply(net, Arrive(0, QUIET, [])), budget, x)
                             <==> Reached(net, budget, x) || x == net.flights[0].to
  {
    hide Growing, Branches, Reached, Apply, Spread, DeliverEffect;
    FirstFlight(net, budget);
    var v, after := net.flights[0].to, Apply(net, Arrive(0, QUIET, []));
    var more := FirstBranches(net, budget);
    FirstArrival(net, budget);
    ReachedNow(net, after, budget, v);
    GrowFlights(net, after, more, budget);
  }

  /** The flights that the first copy's arrival adds. */
  ghost function FirstBranches(net: Net, budget: nat): seq<Flight>
    requires budget >= 1 && net.flights != [] && net.flights[0].to < |net.nodes|
  {
    var fl := net.flights[0];
    Spread(DeliverEffect(net.nodes[fl.to], fl.msg, Some(fl.from), QUIET).outs, fl.to, [], |net.nodes|)
  }

  lemma FirstFlight(net: Net, budget: nat)
    requires budget >= 1 && Growing(net, budget) && net.flights != []
    ensures WellFormed(net) && |net.nodes| == Power(2, budget)
    ensures
      var fl := net.flights[0];
      && fl.to < |net.nodes| && net.nodes[fl.to] == TreeNode(budget, fl.to)
      && Descending(fl, budget)
  {
  }

  lemma FirstArrival(net: Net, budget: nat)
    requires budget >= 1 && Growing(net, budget) && net.flights != []
    ensures WellFormed(net) && net.flights[0].to < |net.nodes|
    ensures
      var v, after := net.flights[0].to, Apply(net, Arrive(0, QUIET, []));
      && WellFormed(after) && |after.nodes| == |net.nodes|
      && after.flights == net.flights[1..] + FirstBranches(net, budget)
      && (forall x: nat :: x < |net.nodes| && x != v ==> after.nodes[x] == net.nodes[x])
      && "m" in after.nodes[v].seen
      && Branches(FirstBranches(net, budget), v, budget)
  {
    hide Growing, DeliverEffect, Spread, TreeNode, Served, Descending, Branches;
    FirstFlight(net, budget);
    var fl := net.flights[0];
    ApplyWellFormed(net, Arrive(0, QUIET, []));
    SeenAfterArrival(net.nodes[fl.to], fl.msg, Some(fl.from), QUIET);
    assert fl.msg.id == "m" by { DescendingId(fl, budget); }
    NodeServes(budget, fl);
    NodeBranches(budget, fl, FirstBranches(net, budget));
  }

  lemma DescendingId(fl: Flight, budget: nat)
    requires budget >= 1 && Descending(fl, budget)
    ensures fl.msg.id == "m"
  {
  }

  lemma NodeBranches(budget: nat, fl: Flight, more: seq<Flight>)
    requires budget >= 1 && Descending(fl, budget)
    requires Served(more, DecrementTTL(fl.msg), fl.to, fl.msg.copiesMade + 1)
    ensures Branches(more, fl.to, budget)
  {
    hide Kids, Kid, Rank, Parent;
    ServedDescend(more, DecrementTTL(fl.msg), fl.to, fl.msg.copiesMade + 1, budget);
  }

  lemma GrowFlights(net: Net, after: Net, more: seq<Flight>, budget: nat)
    requires budget >= 1 && Growing(net, budget) && net.flights != [] && WellFormed(after)
    requires |after.nodes| == |net.nodes| && after.flights == net.flights[1..] + more
    requires forall x: nat :: x < |net.nodes| && x != net.flights[0].to ==> after.nodes[x] == net.nodes[x]
    requires net.flights[0].to < |net.nodes| && "m" in after.nodes[net.flights[0].to].seen
    requires Branches(more, net.flights[0].to, budget)
    ensures Growing(after, budget)
  {
    hide Parent, Rank, TreeNode, Reached, Coming, Branches, Kid;
    var v := net.flights[0].to;
    assert forall x: nat :: Reached(after, budget, x) <==> Reached(net, budget, x) || x == v by { ReachedNow(net, after, budget, v); }
    assert Reached(net, budget, Parent(v)) && v < Root(budget);
    OldAndNew(net, after, more, budget);
    StillServed(net, after, more, budget);
  }

  lemma ReachedNow(net: Net, after: Net, budget: nat, v: nat)
    requires |after.nodes| == |net.nodes| && v < |net.nodes| && "m" in after.nodes[v].seen
    requires forall x: nat :: x < |net.nodes| && x != v ==> after.nodes[x] == net.nodes[x]
    ensures forall x: nat :: Reached(after, budget, x) <==> Reached(net, budget, x) || x == v
  {
  }

  lemma StillServed(net: Net, after: Net, more: seq<Flight>, budget: nat)
    requires budget >= 1 && Growing(net, budget) && net.flights != []
    requires after.flights == net.flights[1..] + more && Branches(more, net.flights[0].to, budget)
    requires forall x: nat :: Reached(after, budget, x) <==> Reached(net, budget, x) || x == net.flights[0].to
    ensures forall y: nat :: y < Root(budget) && Reached(after, budget, Parent(y)) ==>
              Reached(after, budget, y) || Coming(after, y)
  {
    hide Parent, Rank, TreeNode, Reached, Descending;
    var v, rest := net.flights[0].to, net.flights[1..];
    forall y: nat | y < Root(budget) && Reached(after, budget, Parent(y)) && !Reached(after, budget, y)
      ensures Coming(after, y)
    {
      if Parent(y) == v {
        var i :| 0 <= i < |more| && more[i].to == y;
        assert after.flights[|rest| + i] == more[i];
      } else {
        assert Coming(net, y);
        var i :| 0 <= i < |net.flights| && net.flights[i].to == y;
        assert after.flights[i - 1] == net.flights[i];
      }
    }
  }

  /** The flights that stay and those that are added go to different nodes, none of them reached. */
  lemma OldAndNew(net: Net, after: Net, more: seq<Flight>, budget: nat)
    requires budget >= 1 && Growing(net, budget) && net.flights != []
    requires after.flights == net.flights[1..] + more && Branches(more, net.flights[0].to, budget)
    requires forall x: nat :: Reached(after, budget, x) <==> Reached(net, budget, x) || x == net.flights[0].to
    ensures forall i :: 0 <= i < |after.flights| ==>
              Descending(after.flights[i], budget) && !Reached(after, budget, after.flights[i].to)
              && Reached(after, budget, after.flights[i].from)
    ensures forall i, j :: 0 <= i < j < |after.flights| ==> after.flights[i].to != after.flights[j].to
  {
    hide Parent, Rank, TreeNode, Reached;
    var v, k := net.flights[0].to, |net.flights| - 1;
    assert forall i :: 0 <= i < k ==> after.flights[i] == net.flights[i + 1];
    assert forall i :: k <= i < |after.flights| ==> after.flights[i] == more[i - k];
    forall i | 0 <= i < |more|
      ensures !Reached(net, budget, more[i].to) && more[i].to != v
      ensures forall j :: 0 <= j < |net.flights| ==> net.flights[j].to != more[i].to
    {
      assert Descending(more[i], budget) && Parent(more[i].to) == v;
      assert !Reached(net, budget, v);
    }
  }

  /** When nothing is in flight any more, everybody has been reached. */
  lemma {:induction false} EverybodyReached(net: Net, budget: nat, y: nat)
    requires budget >= 1 && Growing(net, budget) && net.flights == [] && y < Power(2, budget)
    ensures Reached(net, budget, y)
    decreases Power(2, budget) - y
  {
    hide Growing, Parent, Rank, Kid, Reached;
    if y < Root(budget) {
      ParentOf(y, budget);
      EverybodyReached(net, budget, Parent(y));
      NoneMissing(net, budget, y);
    } else {
      assert Reached(net, budget, Root(budget)) by { RootReached(net, budget); }
    }
  }

  lemma RootReached(net: Net, budget: nat)
    ensures Reached(net, budget, Root(budget))
  {
  }

  lemma NoneMissing(net: Net, budget: nat, y: nat)
    requires budget >= 1 && Growing(net, budget) && net.flights == []
    requires y < Root(budget) && Reached(net, budget, Parent(y))
    ensures Reached(net, budget, y)
  {
    hide Parent, Rank;
  }

  ghost function Waiting(net: Net, budget: nat): set<nat> {
    set x: nat | x < |net.nodes| && !Reached(net, budget, x)
  }

  /** Any run so far can be continued until nothing is in flight. */
  lemma {:induction false} Drain(start: Net, steps: seq<Step>, budget: nat) returns (all: seq<Step>)
    requires budget >= 1 && WellFormed(start) && Growing(After(start, steps), budget)
    requires AllPermitted(steps, TreeCase(budget))
    ensures AllPermitted(all, TreeCase(budget))
    ensures Growing(After(start, all), budget) && After(start, all).flights == []
    decreases |Waiting(After(start, steps), budget)|
  {
    hide Growing, Apply;
    var net := After(start, steps);
    if net.flights == [] {
      return steps;
    }
    var more := steps + [Arrive(0, QUIET, [])];
    assert more[..|more| - 1] == steps;
    GrowStep(net, budget);
    ApplyWellFormed(net, Arrive(0, QUIET, []));
    FirstWaits(net, budget);
    FewerWaiting(net, Apply(net, Arrive(0, QUIET, [])), budget, net.flights[0].to);
    all := Drain(start, more, budget);
  }

  lemma FewerWaiting(net: Net, after: Net, budget: nat, v: nat)
    requires |after.nodes| == |net.nodes| && v < |net.nodes| && !Reached(net, budget, v)
    requires forall x: nat :: Reached(after, budget, x) <==> Reached(net, budget, x) || x == v
    ensures |Waiting(after, budget)| < |Waiting(net, budget)|
  {
    hide Reached;
    assert v in Waiting(net, budget) && v !in Waiting(after, budget);
    CardinalityMonotone(Waiting(after, budget), Waiting(net, budget));
  }

  lemma FirstWaits(net: Net, budget: nat)
    requires budget >= 1 && Growing(net, budget) && net.flights != []
    ensures net.flights[0].to < |net.nodes| && !Reached(net, budget, net.flights[0].to)
  {
    FirstFlight(net, budget);
  }

  // ------------------------------------------------------------------ the result

  /** For every budget L, and any time to live that reaches the leaves, there is a network and a run in
      which 2^L nodes process the message, and all but the destination hold a copy. */
  lemma BoundAttained(budget: nat, ttl: nat) returns (steps: seq<Step>)
    requires budget >= 1 && ttl >= budget - 1
    ensures
      var net, first, c := Tree(budget), TreeSend(budget, ttl), TreeCase(budget);
      && Unseen(net, c) && FirstSend(first, net, c) && AllPermitted(steps, c) && WellFormed(Apply(net, first))
      && |Processed(After(Apply(net, first), steps), c)| == Power(2, budget)
      && PhysicalCopies(After(Apply(net, first), steps), c) == Power(2, budget) - 1
  {
    hide Apply, Growing;
    TreeUnseen(budget, ttl);
    GrowStart(budget, ttl);
    var net := Apply(Tree(budget), TreeSend(budget, ttl));
    assert WellFormed(net) by { ApplyWellFormed(Tree(budget), TreeSend(budget, ttl)); }
    steps := Drain(net, [], budget);
    AllReached(After(net, steps), budget);
  }

  lemma TreeUnseen(budget: nat, ttl: nat)
    requires budget >= 1
    ensures Unseen(Tree(budget), TreeCase(budget)) && FirstSend(TreeSend(budget, ttl), Tree(budget), TreeCase(budget))
  {
    hide PeerSet;
    PowerPositive(2, budget);
  }

  lemma AllReached(net: Net, budget: nat)
    requires budget >= 1 && Growing(net, budget) && net.flights == []
    ensures |Processed(net, TreeCase(budget))| == Power(2, budget)
    ensures PhysicalCopies(net, TreeCase(budget)) == Power(2, budget) - 1
  {
    hide Growing, Reached, Processed, Holders, Power, Total;
    assert |net.nodes| == Power(2, budget) by { GrowingSize(net, budget); }
    forall y: nat | y < |net.nodes|
      ensures Reached(net, budget, y)
    {
      EverybodyReached(net, budget, y);
    }
    ReachedSets(net, budget);
    TotalNone(CopyCount(TreeCase(budget)));
  }

  lemma GrowingSize(net: Net, budget: nat)
    requires budget >= 1 && Growing(net, budget)
    ensures |net.nodes| == Power(2, budget)
  {
  }

  lemma ReachedSets(net: Net, budget: nat)
    requires budget >= 1 && |net.nodes| == Power(2, budget)
    requires forall y: nat :: y < |net.nodes| ==> Reached(net, budget, y)
    ensures |Processed(net, TreeCase(budget))| == |net.nodes|
    ensures |Holders(net, TreeCase(budget))| == |net.nodes| - 1
  {
    hide Power;
    var c := TreeCase(budget);
    assert forall y: nat :: y in Processed(net, c) <==> y < |net.nodes| && Reached(net, budget, y);
    assert Processed(net, c) == Range(|net.nodes|);
    RootNotTarget(budget);
    assert Target(budget) in Range(|net.nodes|);
    assert Holders(net, c) == Range(|net.nodes|) - {Target(budget)};
  }

  /** No run has more than this many nodes processing the message. */
  ghost predicate ProcessedAtMost(budget: nat, most: nat) {
    forall net: Net, first: Step, steps: seq<Step>, c: Case ::
      c.budget == budget && Unseen(net, c) && FirstSend(first, net, c) && AllPermitted(steps, c) ==>
        ProcessedAfter(net, first, steps, c) <= most
  }

  ghost function ProcessedAfter(net: Net, first: Step, steps: seq<Step>, c: Case): nat
    requires WellFormed(net)
  {
    ApplyWellFormed(net, first);
    |Processed(After(Apply(net, first), steps), c)|
  }

  /** Over all networks and runs the bounds are exactly the numbers from 2^L up. */
  lemma BoundExactly(budget: nat, most: nat)
    requires budget >= 1
    ensures ProcessedAtMost(budget, most) <==> most >= Power(2, budget)
  {
    hide FirstSend, AllPermitted, Processed, Apply, Tree, TreeSend, TreeCase, Power;
    if most >= Power(2, budget) {
      forall net: Net, first: Step, steps: seq<Step>, c: Case
        | c.budget == budget && Unseen(net, c) && FirstSend(first, net, c) && AllPermitted(steps, c)
        ensures ProcessedAfter(net, first, steps, c) <= most
      {
        CopyBound(net, first, steps, c);
      }
    }
    if ProcessedAtMost(budget, most) {
      var steps := BoundAttained(budget, budget);
      assert TreeCase(budget).budget == budget by { CaseBudget(budget); }
      assert ProcessedAfter(Tree(budget), TreeSend(budget, budget), steps, TreeCase(budget)) == Power(2, budget);
    }
  }

  lemma CaseBudget(budget: nat)
    requires budget >= 1
    ensures TreeCase(budget).budget == budget
  {
  }
}
