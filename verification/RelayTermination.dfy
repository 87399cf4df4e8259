/** Relaying ends: whatever is pruned, and however flooding and routing nodes are mixed, finitely many
    sends cause finitely many arrivals. */
module RelayTermination {
  import opened Prelude
  import opened Routing
  import opened Mesh
  import opened Network

  function Power(base: nat, e: nat): nat {
    if e == 0 then 1 else base * Power(base, e - 1)
  }

  lemma {:induction false} PowerPositive(base: nat, e: nat)
    requires base >= 1
    ensures Power(base, e) >= 1
  {
    if e > 0 {
      PowerPositive(base, e - 1);
      assert base * Power(base, e - 1) >= 1 * Power(base, e - 1);
    }
  }

  function Hops(m: Message): nat {
    if m.ttl > 0 then m.ttl else 0
  }

  /** What the receipt for one message can cost, plus the arrival itself. */
  function AckAllowance(n: nat): nat {
    1 + n * Power(n + 1, ACK_TTL)
  }

  /** An upper bound on the arrivals one copy can still cause, its own included. */
  function Weight(n: nat, m: Message): nat {
    Power(n + 1, Hops(m)) * (if m.typ.DeliveryAck? then 1 else AckAllowance(n))
  }

  function FlightWeight(n: nat): Flight -> nat {
    (fl: Flight) => Weight(n, fl.msg)
  }

  ghost function Measure(net: Net): nat {
    Total(net.flights, FlightWeight(|net.nodes|))
  }

  /** One hop's worth of copies of a message weighs at most n times the message. */
  lemma OneHopWeight(outs: seq<Out>, m: Message, from: NodeId, listeners: seq<NodeId>, n: nat)
    requires OneHop(outs, m) && ValidListeners(n, listeners)
    ensures Total(Spread(outs, from, listeners, n), FlightWeight(n)) <= n * Weight(n, m)
    ensures outs == [] ==> Total(Spread(outs, from, listeners, n), FlightWeight(n)) == 0
  {
    hide Power;
    var flights := Spread(outs, from, listeners, n);
    OneHopReach(outs, m, from, listeners, n);
    SpreadMembers(outs, from, listeners, n);
    forall fl | fl in flights
      ensures FlightWeight(n)(fl) <= Weight(n, m)
    {
      var i :| 0 <= i < |outs| && fl.msg == outs[i].msg;
      assert outs[i] in outs;
    }
    TotalAtMost(flights, FlightWeight(n), Weight(n, m));
    MultiplyMonotone(|flights|, n, Weight(n, m));
  }

  lemma MultiplyMonotone(a: nat, b: nat, c: nat)
    requires a <= b
    ensures a * c <= b * c
  {
    assert (b - a) * c >= 0;
  }

  /** What a copy with hops left weighs covers its arrival, the copies of the next hop and a receipt. */
  lemma WeightCovers(n: nat, m: Message, ack: Message)
    requires ack.typ.DeliveryAck? && ack.ttl == ACK_TTL
    ensures Weight(n, m) >= 1 + (if m.ttl > 0 then n * Weight(n, DecrementTTL(m)) else 0)
                              + (if m.typ.DeliveryAck? then 0 else n * Weight(n, ack))
  {
    var k := if m.typ.DeliveryAck? then 1 else AckAllowance(n);
    assert k == 1 + (if m.typ.DeliveryAck? then 0 else n * Weight(n, ack)) by {
      assert Weight(n, ack) == Power(n + 1, ACK_TTL) * 1;
    }
    if m.ttl > 0 {
      var p := Power(n + 1, Hops(m) - 1);
      PowerPositive(n + 1, Hops(m) - 1);
      assert Weight(n, m) == ((n + 1) * p) * k;
      assert Weight(n, DecrementTTL(m)) == p * k;
      Spend(n, p, k);
    } else {
      assert Weight(n, m) == 1 * k;
    }
  }

  lemma Spend(n: nat, p: nat, k: nat)
    requires p >= 1
    ensures ((n + 1) * p) * k >= k + n * (p * k)
  {
    assert ((n + 1) * p) * k == n * (p * k) + p * k;
    MultiplyMonotone(1, p, k);
  }

  /** Every arrival makes the network lighter by at least one. */
  lemma ArrivalDecreases(net: Net, index: nat, env: Env, listeners: seq<NodeId>)
    requires WellFormed(net) && Enabled(net, Arrive(index, env, listeners))
    ensures Measure(Apply(net, Arrive(index, env, listeners))) + 1 <= Measure(net)
  {
    hide Power, Spread, DeliverEffect, Weight, Total;
    var n, w := |net.nodes|, FlightWeight(|net.nodes|);
    var fl := net.flights[index];
    var m, from, s := fl.msg, Some(fl.from), net.nodes[fl.to];
    TotalWithout(net.flights, index, w);
    TotalAppend(Without(net.flights, index), Spread(DeliverEffect(s, m, from, env).outs, fl.to, listeners, n), w);
    assert w(fl) == Weight(n, m);
    ArrivalPays(s, m, from, env, fl.to, listeners, n);
  }

  /** What an arrival sends on, with one unit for the arrival itself, is paid for by the copy. */
  lemma ArrivalPays(s: NodeState, m: Message, from: Option<NodeId>, env: Env,
                    at: NodeId, listeners: seq<NodeId>, n: nat)
    requires ValidListeners(n, listeners)
    ensures Total(Spread(DeliverEffect(s, m, from, env).outs, at, listeners, n), FlightWeight(n)) + 1 <= Weight(n, m)
  {
    hide Power, Spread, SendEffect, RelayEffect, AckEffect, Noted, Weight, Total;
    WeightCovers(n, m, AckFor(s, m, env));
    var each, ack := Weight(n, DecrementTTL(m)), Weight(n, AckFor(s, m, env));
    MultiplyMonotone(0, n, each);
    MultiplyMonotone(0, n, ack);
    if m.id in s.seen {
      OneHopWeight([], m, at, listeners, n);
    } else {
      ArrivalOuts(Noted(s, m, from, env.now), m, from, env, at, listeners, n);
      NotedMe(s, m, from, env.now);
    }
  }

  lemma NotedMe(s: NodeState, m: Message, from: Option<NodeId>, now: int)
    ensures Noted(s, m, from, now).me == s.me
  {
    hide Recorded;
  }

  lemma ArrivalOuts(s: NodeState, m: Message, from: Option<NodeId>, env: Env,
                    at: NodeId, listeners: seq<NodeId>, n: nat)
    requires ValidListeners(n, listeners)
    ensures
      var relay := RelayEffect(s, m, from, env.now);
      var ack := AckEffect(relay.state, m, env);
      Total(Spread(relay.outs + ack.outs, at, listeners, n), FlightWeight(n))
        <= (if m.ttl > 0 then n * Weight(n, DecrementTTL(m)) else 0)
           + (if m.typ.DeliveryAck? then 0 else n * Weight(n, AckFor(s, m, env)))
  {
    hide Power, Spread, SendEffect, RelayEffect, AckEffect, Weight;
    var relay := RelayEffect(s, m, from, env.now);
    var ack := AckEffect(relay.state, m, env);
    RelayOuts(s, m, from, env.now);
    AckOuts(relay.state, m, env);
    SpreadAppend(relay.outs, ack.outs, at, listeners, n);
    TotalAppend(Spread(relay.outs, at, listeners, n), Spread(ack.outs, at, listeners, n), FlightWeight(n));
    OneHopWeight(relay.outs, DecrementTTL(m), at, listeners, n);
    OneHopWeight(ack.outs, AckFor(relay.state, m, env), at, listeners, n);
  }

  /** A local send adds at most n times the message's weight; everything else adds nothing. */
  lemma OtherStepsBounded(net: Net, step: Step)
    requires WellFormed(net) && !step.Arrive?
    ensures Measure(Apply(net, step)) <= Measure(net) + (if step.Send? then |net.nodes| * Weight(|net.nodes|, step.msg) else 0)
  {
    hide Power, Spread, SendEffect;
    if Enabled(net, step) {
      var n, w := |net.nodes|, FlightWeight(|net.nodes|);
      match step
      case Send(at, m, env, listeners) =>
        SendOuts(net.nodes[at], m, env);
        var sent := Spread(SendEffect(net.nodes[at], m, env).outs, at, listeners, n);
        TotalAppend(net.flights, sent, w);
        OneHopWeight(SendEffect(net.nodes[at], m, env).outs, m, at, listeners, n);
      case Lose(index) =>
        TotalWithout(net.flights, index, w);
      case PruneSeen(_) =>
      case PruneSprayed(_) =>
      case Connect(_, _) =>
    }
  }

  /** The arrivals handled during a run. */
  ghost function Arrivals(net: Net, steps: seq<Step>): nat
    requires WellFormed(net)
  {
    if steps == [] then 0
    else
      var k := |steps| - 1;
      Arrivals(net, steps[..k]) +
        if steps[k].Arrive? && Enabled(After(net, steps[..k]), steps[k]) then 1 else 0
  }

  /** What the local sends of a run allow for. */
  function Allowance(n: nat, steps: seq<Step>): nat {
    if steps == [] then 0
    else
      var k := |steps| - 1;
      Allowance(n, steps[..k]) + if steps[k].Send? then n * Weight(n, steps[k].msg) else 0
  }

  /** In every run the number of arrivals is bounded by what was in flight and what was sent locally:
      no interleaving, pruning, loss or mix of nodes relays for ever. */
  lemma {:induction false} RelayingTerminates(net: Net, steps: seq<Step>)
    requires WellFormed(net)
    ensures Arrivals(net, steps) + Measure(After(net, steps)) <= Measure(net) + Allowance(|net.nodes|, steps)
  {
    hide Weight, Measure, Apply;
    if steps != [] {
      var k := |steps| - 1;
      var before := After(net, steps[..k]);
      RelayingTerminates(net, steps[..k]);
      if steps[k].Arrive? {
        if Enabled(before, steps[k]) {
          ArrivalDecreases(before, steps[k].index, steps[k].env, steps[k].listeners);
        } else {
          DisabledIsIdle(before, steps[k]);
        }
      } else {
        OtherStepsBounded(before, steps[k]);
      }
    }
  }

  lemma DisabledIsIdle(net: Net, step: Step)
    requires WellFormed(net) && !Enabled(net, step)
    ensures Apply(net, step) == net
  {
  }
}
