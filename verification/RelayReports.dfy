/** What a node reports about a message between two prunes of its dedup set. */
module RelayReports {
  import opened Prelude
  import opened Routing
  import opened Mesh
  import opened Network
  import opened CopyPotential
  import opened RelayPaths

  datatype Call = Call(msg: Message, from: Option<NodeId>, env: Env)

  /** What a node does between two prunes of its dedup set; the ledger of sprayed peers may be pruned. */
  datatype Act =
    | Arrival(call: Call)
    | Sending(msg: Message, env: Env)
    | PeersBecome(peers: set<NodeId>)
    | LedgerPruned

  datatype Log = Log(state: NodeState, events: seq<RelayEvent>)

  /** One act: the state it leaves and what it reports. */
  ghost function Perform(s: NodeState, act: Act): Log {
    match act
    case Arrival(call) =>
      var e := DeliverEffect(s, call.msg, call.from, call.env);
      Log(e.state, e.events)
    case Sending(m, env) =>
      var e := SendEffect(s, m, env);
      Log(e.state, e.events)
    case PeersBecome(peers) => Log(s.(peers := peers), [])
    case LedgerPruned => Log(s.(sprayed := map[]), [])
  }

  ghost function Handle(s: NodeState, acts: seq<Act>): Log {
    if acts == [] then Log(s, [])
    else
      var log := Handle(s, acts[..|acts| - 1]);
      var next := Perform(log.state, acts[|acts| - 1]);
      Log(next.state, log.events + next.events)
  }

  function TraceOf(events: seq<RelayEvent>, id: MsgId): seq<RelayEvent> {
    if events == [] then []
    else
      var init, last := TraceOf(events[..|events| - 1], id), events[|events| - 1];
      if last.msgId == id then init + [last] else init
  }

  /** The arrivals of a message id. */
  function ArrivalsOf(acts: seq<Act>, id: MsgId): seq<Call> {
    if acts == [] then []
    else
      var init, last := ArrivalsOf(acts[..|acts| - 1], id), acts[|acts| - 1];
      if last.Arrival? && last.call.msg.id == id then init + [last.call] else init
  }

  /** The node sends this message itself. */
  predicate Sends(act: Act, id: MsgId) {
    act.Sending? && act.msg.id == id
  }

  /** The receipts it makes out have other ids. */
  predicate FreshReceipts(acts: seq<Act>, id: MsgId) {
    forall i :: 0 <= i < |acts| && acts[i].Arrival? ==> acts[i].call.env.freshId != id
  }

  function Drops(calls: seq<Call>): seq<RelayEvent> {
    seq(|calls|, i requires 0 <= i < |calls| => Event(calls[i].msg, Dropped, calls[i].from))
  }

  /** What a node reports about a first arrival: received, then nothing more for its own message, one drop
      when the lifetime is spent, and otherwise one forwarding per send, one hop further on. */
  predicate FirstReport(report: seq<RelayEvent>, me: NodeId, call: Call) {
    var m := call.msg;
    && report != [] && report[0] == Event(m, Received, call.from)
    && (m.sender == Peer(me) ==> |report| == 1)
    && (m.sender != Peer(me) && m.ttl <= 0 ==> report == [Event(m, Received, call.from), Event(m, Dropped, call.from)])
    && (m.sender != Peer(me) && m.ttl > 0 ==>
          forall i :: 1 <= i < |report| ==>
            && report[i] == Event(DecrementTTL(m).(copiesMade := report[i].copies), Forwarded, call.from)
            && report[i].copies >= m.copiesMade)
  }

  /** One first arrival, then one drop for every further arrival. */
  predicate Grammar(trace: seq<RelayEvent>, arrivals: seq<Call>, me: NodeId) {
    if arrivals == [] then trace == []
    else
      && |trace| >= |arrivals|
      && FirstReport(trace[..|trace| - |arrivals| + 1], me, arrivals[0])
      && trace[|trace| - |arrivals| + 1..] == Drops(arrivals[1..])
  }

  lemma GrammarFirst(report: seq<RelayEvent>, call: Call, me: NodeId)
    requires FirstReport(report, me, call)
    ensures Grammar([] + report, [] + [call], me)
  {
    assert [] + report == report && report[..|report|] == report;
    assert Drops([call][1..]) == [];
  }

  lemma GrammarDrop(trace: seq<RelayEvent>, arrivals: seq<Call>, call: Call, me: NodeId)
    requires Grammar(trace, arrivals, me) && arrivals != []
    ensures Grammar(trace + [Event(call.msg, Dropped, call.from)], arrivals + [call], me)
  {
    var drop, p := Event(call.msg, Dropped, call.from), |trace| - |arrivals| + 1;
    assert Drops((arrivals + [call])[1..]) == Drops(arrivals[1..]) + [drop];
    assert (trace + [drop])[..p] == trace[..p] && (trace + [drop])[p..] == trace[p..] + [drop];
  }

  /** Between prunes a node that does not send a message itself reports it as one first arrival followed
      by one drop for every further arrival, and nothing else, whatever else it does meanwhile. */
  lemma {:induction false} TraceGrammar(s: NodeState, acts: seq<Act>, id: MsgId)
    requires id !in s.seen && FreshReceipts(acts, id) && forall i :: 0 <= i < |acts| ==> !Sends(acts[i], id)
    ensures Grammar(TraceOf(Handle(s, acts).events, id), ArrivalsOf(acts, id), s.me)
  {
    hide DeliverEffect, SendEffect, Grammar, Event;
    if acts == [] {
      EmptyGrammar([], s.me);
    } else {
      var k := |acts| - 1;
      var log, act := Handle(s, acts[..k]), acts[k];
      var next := Perform(log.state, act);
      TraceGrammar(s, acts[..k], id);
      SeenByArrivals(s, acts[..k], id);
      var arrivals, trace := ArrivalsOf(acts[..k], id), TraceOf(log.events, id);
      TraceAppend(log.events, next.events, id);
      match act
      case Arrival(call) =>
        ArrivalTrace(log.state, call, id);
        if call.msg.id != id {
          assert trace + [] == trace;
        } else if id in log.state.seen {
          GrammarDrop(trace, arrivals, call, s.me);
        } else {
          assert trace == [] by { EmptyGrammar(trace, s.me); }
          GrammarFirst(TraceOf(next.events, id), call, s.me);
        }
      case Sending(m, env) =>
        SendTrace(log.state, m, env, id);
        assert trace + [] == trace;
      case PeersBecome(_) => assert trace + [] == trace;
      case LedgerPruned => assert trace + [] == trace;
    }
  }

  /** Only an arrival makes a message seen. */
  lemma {:induction false} SeenByArrivals(s: NodeState, acts: seq<Act>, id: MsgId)
    requires id !in s.seen
    ensures Handle(s, acts).state.me == s.me
    ensures id in Handle(s, acts).state.seen <==> ArrivalsOf(acts, id) != []
  {
    hide DeliverEffect, SendEffect;
    if acts != [] {
      var k := |acts| - 1;
      SeenByArrivals(s, acts[..k], id);
      var t := Handle(s, acts[..k]).state;
      match acts[k]
      case Arrival(call) => ArrivalState(t, call.msg, call.from, call.env);
      case Sending(m, env) => SendOuts(t, m, env);
      case PeersBecome(_) =>
      case LedgerPruned =>
    }
  }

  lemma ArrivalState(s: NodeState, m: Message, from: Option<NodeId>, env: Env)
    ensures DeliverEffect(s, m, from, env).state.me == s.me
    ensures DeliverEffect(s, m, from, env).state.seen == s.seen + {m.id}
  {
    hide DeliverEffect, Noted;
    SeenAfterArrival(s, m, from, env);
    StateAfterArrival(s, m, from, env);
    NotedBudget(s, m, from, env.now);
  }

  /** The forwarder's decision about a peer, when the message is first offered. */
  predicate Takes(s: NodeState, m: Message, peer: NodeId, now: int) {
    var action := Decide(ForwarderOf(s), m.recipient, CountedOnce(m).copiesMade, Peer(peer),
                         StatForDestination(s.encounters, m.recipient, now), 0.0, peer in SprayedTo(s.sprayed, m.id));
    !action.Keep? && !action.Dup?
  }

  function CountedOnce(m: Message): Message {
    m.(copiesMade := if m.copiesMade < 1 then 1 else m.copiesMade)
  }

  /** A send that hands copies to peers at once: the message is routed, and some known peer takes one. */
  predicate HandsOut(s: NodeState, m: Message, now: int) {
    Routes(s, m) && exists p :: p in Eligible(s, None) && Takes(s, m, p, now)
  }

  /** What a local send reports: one event of its own, then one per copy handed out. */
  lemma SendTrace(s: NodeState, m: Message, env: Env, id: MsgId)
    ensures
      var trace := TraceOf(SendEffect(s, m, env).events, id);
      if m.id != id then trace == []
      else
        && trace != [] && trace[0].action.Sent?
        && (forall i :: 1 <= i < |trace| ==> trace[i].action.Forwarded?)
        && (|trace| > 1 <==> HandsOut(s, m, env.now))
  {
    hide Route, Candidates, StatForDestination, TraceOf, Takes, Eligible;
    var events := SendEffect(s, m, env).events;
    var first, myP := CountedOnce(m), StatForDestination(s.encounters, m.recipient, env.now);
    RouteEvents(s, first, None, myP, Candidates(s, None));
    TraceSame(events, id, m.id == id);
    if Routes(s, m) {
      RouteReportsTakers(s, m, Candidates(s, None), env.now);
      assert forall p :: p in Candidates(s, None) <==> p in Eligible(s, None) by { CandidatesAreEligible(s, None); }
    }
  }

  lemma CandidatesAreEligible(s: NodeState, from: Option<NodeId>)
    ensures forall p :: p in Candidates(s, from) <==> p in Eligible(s, from)
  {
  }

  /** A pass reports something exactly when some candidate would take the message as it was at first. */
  lemma {:induction false} RouteReportsTakers(s: NodeState, m: Message, cands: seq<NodeId>, now: int)
    ensures
      var e := Route(s, CountedOnce(m), None, StatForDestination(s.encounters, m.recipient, now), cands);
      && (e.events == [] ==> e.state == s && e.msg == CountedOnce(m))
      && (e.events != [] <==> exists p :: p in cands && Takes(s, m, p, now))
  {
    hide StatForDestination, OfferTo, Takes;
    if cands != [] {
      var k, myP := |cands| - 1, StatForDestination(s.encounters, m.recipient, now);
      RouteReportsTakers(s, m, cands[..k], now);
      var before := Route(s, CountedOnce(m), None, myP, cands[..k]);
      assert Route(s, CountedOnce(m), None, myP, cands) == OfferTo(before, None, myP, cands[k]);
      OfferReports(before, s, m, cands[k], now);
      assert forall p :: p in cands <==> p in cands[..k] || p == cands[k];
    }
  }

  lemma OfferReports(e: Effect, s: NodeState, m: Message, peer: NodeId, now: int)
    ensures
      var after := OfferTo(e, None, StatForDestination(s.encounters, m.recipient, now), peer);
      && (e.events != [] ==> after.events != [])
      && (e.events == [] && e.state == s && e.msg == CountedOnce(m) ==>
            && (after.events == [] ==> after == e)
            && (after.events != [] <==> Takes(s, m, peer, now)))
  {
    hide StatForDestination;
  }

  /** Exactly the local sends are reported as sent. */
  lemma {:induction false} OwnSendReported(s: NodeState, acts: seq<Act>, id: MsgId)
    requires FreshReceipts(acts, id)
    ensures (exists i :: 0 <= i < |acts| && Sends(acts[i], id)) <==> HasAction(TraceOf(Handle(s, acts).events, id), Sent)
  {
    hide Perform, HasAction;
    if acts == [] {
      NothingYet(s, id);
    } else {
      var k := |acts| - 1;
      var log := Handle(s, acts[..k]);
      var next := Perform(log.state, acts[k]);
      OwnSendReported(s, acts[..k], id);
      TraceAppend(log.events, next.events, id);
      HasActionAppend(TraceOf(log.events, id), TraceOf(next.events, id), Sent);
      OneActSends(log.state, acts[k], id);
      assert forall i :: 0 <= i < k ==> acts[i] == acts[..k][i];
    }
  }

  lemma OneActSends(s: NodeState, act: Act, id: MsgId)
    requires FreshReceipts([act], id)
    ensures HasAction(TraceOf(Perform(s, act).events, id), Sent) <==> Sends(act, id)
  {
    hide DeliverEffect, SendEffect, HandsOut;
    match act
    case Arrival(call) =>
      assert [act][0] == act;
      ArrivalTrace(s, call, id);
    case Sending(m, env) => SendTrace(s, m, env, id);
    case PeersBecome(_) =>
    case LedgerPruned =>
  }

  predicate HasAction(trace: seq<RelayEvent>, action: RelayAction) {
    exists i :: 0 <= i < |trace| && trace[i].action == action
  }

  lemma HasActionAppend(a: seq<RelayEvent>, b: seq<RelayEvent>, action: RelayAction)
    ensures HasAction(a + b, action) <==> HasAction(a, action) || HasAction(b, action)
  {
    if HasAction(a, action) {
      var i :| 0 <= i < |a| && a[i].action == action;
      assert (a + b)[i] == a[i];
    }
    if HasAction(b, action) {
      var i :| 0 <= i < |b| && b[i].action == action;
      assert (a + b)[|a| + i] == b[i];
    }
  }

  /** The grammar holds exactly when the node does not send the message itself. */
  lemma GrammarExactly(s: NodeState, acts: seq<Act>, id: MsgId)
    requires id !in s.seen && FreshReceipts(acts, id)
    ensures Grammar(TraceOf(Handle(s, acts).events, id), ArrivalsOf(acts, id), s.me) <==>
            forall i :: 0 <= i < |acts| ==> !Sends(acts[i], id)
  {
    hide Handle, TraceOf, Grammar;
    OwnSendReported(s, acts, id);
    if forall i :: 0 <= i < |acts| ==> !Sends(acts[i], id) {
      TraceGrammar(s, acts, id);
    } else if Grammar(TraceOf(Handle(s, acts).events, id), ArrivalsOf(acts, id), s.me) {
      NothingSentInGrammar(TraceOf(Handle(s, acts).events, id), ArrivalsOf(acts, id), s.me);
    }
  }

  lemma NothingSentInGrammar(trace: seq<RelayEvent>, arrivals: seq<Call>, me: NodeId)
    requires Grammar(trace, arrivals, me)
    ensures !HasAction(trace, Sent)
  {
    if arrivals != [] {
      var p := |trace| - |arrivals| + 1;
      assert forall i :: 0 <= i < p ==> trace[i] == trace[..p][i];
      assert forall i :: p <= i < |trace| ==> trace[i] == trace[p..][i - p];
    }
  }

  /** Something was forwarded before anything was received. */
  predicate ForwardsFirst(trace: seq<RelayEvent>) {
    trace != [] && !trace[0].action.Received? && (trace[0].action.Forwarded? || ForwardsFirst(trace[1..]))
  }

  /** The node hands out copies of its own message before any copy of it has come back. */
  ghost predicate HandsOutFirst(s: NodeState, acts: seq<Act>, id: MsgId) {
    exists k :: 0 <= k < |acts| && Sends(acts[k], id) && ArrivalsOf(acts[..k], id) == []
                && HandsOut(Handle(s, acts[..k]).state, acts[k].msg, acts[k].env.now)
  }

  /** `Forwarded` is reported before any reception exactly when the node itself sends the message, before
      any copy of it arrives, on the routed path and with a known peer that takes one. */
  lemma {:induction false} ForwardsFirstExactly(s: NodeState, acts: seq<Act>, id: MsgId)
    requires id !in s.seen && FreshReceipts(acts, id)
    ensures ForwardsFirst(TraceOf(Handle(s, acts).events, id)) <==> HandsOutFirst(s, acts, id)
    ensures HasAction(TraceOf(Handle(s, acts).events, id), Received) <==> ArrivalsOf(acts, id) != []
  {
    hide DeliverEffect, SendEffect, HandsOut, Handle, ForwardsFirst, HandsOutFirst;
    if acts == [] {
      NothingYet(s, id);
    } else {
      var k := |acts| - 1;
      ForwardsFirstExactly(s, acts[..k], id);
      SeenByArrivals(s, acts[..k], id);
      HandleSnoc(s, acts);
      HandsOutSnoc(s, acts, id);
      var log, act := Handle(s, acts[..k]), acts[k];
      var next := Perform(log.state, act);
      var trace, more := TraceOf(log.events, id), TraceOf(next.events, id);
      TraceAppend(log.events, next.events, id);
      HasActionAppend(trace, more, Received);
      ForwardsFirstAppend(trace, more);
      match act
      case Arrival(call) =>
        ArrivalTrace(log.state, call, id);
        ArrivalStartsReceived(more);
      case Sending(m, env) =>
        SendTrace(log.state, m, env, id);
        SendForwards(more);
      case PeersBecome(_) => ArrivalStartsReceived([]);
      case LedgerPruned => ArrivalStartsReceived([]);
    }
  }

  lemma NothingYet(s: NodeState, id: MsgId)
    ensures Handle(s, []).events == [] && !ForwardsFirst([]) && !HandsOutFirst(s, [], id)
    ensures forall action :: !HasAction([], action)
  {
  }

  lemma HandleSnoc(s: NodeState, acts: seq<Act>)
    requires acts != []
    ensures
      var log := Handle(s, acts[..|acts| - 1]);
      Handle(s, acts).events == log.events + Perform(log.state, acts[|acts| - 1]).events
  {
  }

  lemma HandsOutSnoc(s: NodeState, acts: seq<Act>, id: MsgId)
    requires acts != []
    ensures
      var init, last := acts[..|acts| - 1], acts[|acts| - 1];
      HandsOutFirst(s, acts, id) <==>
        || HandsOutFirst(s, init, id)
        || (Sends(last, id) && ArrivalsOf(init, id) == [] && HandsOut(Handle(s, init).state, last.msg, last.env.now))
  {
    hide Handle, HandsOut, ArrivalsOf;
    var k := |acts| - 1;
    assert forall i :: 0 <= i < k ==> acts[..k][..i] == acts[..i];
    if HandsOutFirst(s, acts[..k], id) {
      var i :| 0 <= i < k && Sends(acts[..k][i], id) && ArrivalsOf(acts[..k][..i], id) == []
               && HandsOut(Handle(s, acts[..k][..i]).state, acts[..k][i].msg, acts[..k][i].env.now);
      assert Sends(acts[i], id) && ArrivalsOf(acts[..i], id) == [];
    }
    if HandsOutFirst(s, acts, id) {
      var i :| 0 <= i < |acts| && Sends(acts[i], id) && ArrivalsOf(acts[..i], id) == []
               && HandsOut(Handle(s, acts[..i]).state, acts[i].msg, acts[i].env.now);
      if i < k {
        assert acts[..k][i] == acts[i];
      }
    }
  }

  lemma {:induction false} ForwardsFirstAppend(a: seq<RelayEvent>, b: seq<RelayEvent>)
    ensures ForwardsFirst(a + b) <==> ForwardsFirst(a) || (!HasAction(a, Received) && ForwardsFirst(b))
  {
    if a == [] {
      assert a + b == b;
    } else {
      ForwardsFirstAppend(a[1..], b);
      HasActionHead(a, Received);
      hide HasAction;
      assert (a + b)[0] == a[0] && (a + b)[1..] == a[1..] + b;
    }
  }

  lemma HasActionHead(a: seq<RelayEvent>, action: RelayAction)
    requires a != []
    ensures HasAction(a, action) <==> a[0].action == action || HasAction(a[1..], action)
  {
    assert [a[0]] + a[1..] == a;
    HasActionAppend([a[0]], a[1..], action);
    assert HasAction([a[0]], action) <==> [a[0]][0].action == action;
  }

  /** A report that starts with a reception, or has no forwarding, forwards nothing first. */
  lemma ArrivalStartsReceived(trace: seq<RelayEvent>)
    requires trace == [] || trace[0].action.Received? || (|trace| == 1 && trace[0].action.Dropped?)
    ensures !ForwardsFirst(trace)
    ensures HasAction(trace, Received) <==> trace != [] && trace[0].action.Received?
  {
  }

  lemma SendForwards(trace: seq<RelayEvent>)
    requires trace != [] ==> trace[0].action.Sent?
    requires forall i :: 1 <= i < |trace| ==> trace[i].action.Forwarded?
    ensures ForwardsFirst(trace) <==> |trace| > 1
    ensures !HasAction(trace, Received)
  {
    if |trace| > 1 {
      assert trace[1..][0] == trace[1];
    }
  }

  /** A node that knows one peer and sends an addressed message: forwarded, and never received. */
  lemma OwnMessageForwardedUnreceived()
    ensures
      var s := NodeState(0, {1}, {}, map[], map[], 2, Some(SprayAndWait(2)));
      var m := Message("m", Chat, Peer(0), Peer(5), 16, 0, 0, "");
      var acts := [Sending(m, Env(0, false, "ack"))];
      && ForwardsFirst(TraceOf(Handle(s, acts).events, "m"))
      && !HasAction(TraceOf(Handle(s, acts).events, "m"), Received)
      && !Grammar(TraceOf(Handle(s, acts).events, "m"), ArrivalsOf(acts, "m"), 0)
  {
    hide Handle, Grammar, TraceOf, ForwardsFirst;
    var s := NodeState(0, {1}, {}, map[], map[], 2, Some(SprayAndWait(2)));
    var m := Message("m", Chat, Peer(0), Peer(5), 16, 0, 0, "");
    var acts := [Sending(m, Env(0, false, "ack"))];
    assert 1 in Eligible(s, None) && Takes(s, m, 1, 0);
    assert acts[..0] == [] && ArrivalsOf([], "m") == [];
    assert Handle(s, []).state == s by { NoActs(s); }
    assert Sends(acts[0], "m") && HandsOut(Handle(s, acts[..0]).state, m, 0);
    ForwardsFirstExactly(s, acts, "m");
    GrammarExactly(s, acts, "m");
  }

  lemma NoActs(s: NodeState)
    ensures Handle(s, []).state == s
  {
  }

  lemma EmptyGrammar(trace: seq<RelayEvent>, me: NodeId)
    ensures Grammar(trace, [], me) <==> trace == []
  {
  }

  lemma {:induction false} TraceAppend(a: seq<RelayEvent>, b: seq<RelayEvent>, id: MsgId)
    ensures TraceOf(a + b, id) == TraceOf(a, id) + TraceOf(b, id)
  {
    if b == [] {
      assert a + b == a;
    } else {
      TraceAppend(a, b[..|b| - 1], id);
      assert (a + b)[..|a + b| - 1] == a + b[..|b| - 1];
    }
  }

  lemma {:induction false} TraceSame(events: seq<RelayEvent>, id: MsgId, same: bool)
    requires forall i :: 0 <= i < |events| ==> (events[i].msgId == id) == same
    ensures TraceOf(events, id) == if same then events else []
  {
    if events != [] {
      TraceSame(events[..|events| - 1], id, same);
    }
  }

  /** What one arrival reports about a message id. */
  lemma ArrivalTrace(s: NodeState, call: Call, id: MsgId)
    requires call.env.freshId != id
    ensures
      var e := DeliverEffect(s, call.msg, call.from, call.env);
      var trace := TraceOf(e.events, id);
      && e.state.me == s.me && e.state.seen == s.seen + {call.msg.id}
      && (call.msg.id != id ==> trace == [])
      && (call.msg.id == id && id in s.seen ==> trace == [Event(call.msg, Dropped, call.from)])
      && (call.msg.id == id && id !in s.seen ==> trace != [] && FirstReport(trace, s.me, call))
  {
    hide SendEffect, RelayEffect, Noted, TraceOf;
    var m, from, env := call.msg, call.from, call.env;
    SeenAfterArrival(s, m, from, env);
    StateAfterArrival(s, m, from, env);
    NotedBudget(s, m, from, env.now);
    if m.id in s.seen {
      TraceSame([Event(m, Dropped, from)], id, m.id == id);
    } else {
      var noted := Noted(s, m, from, env.now);
      var relay := RelayEffect(noted, m, from, env.now);
      var ack := AckEffect(relay.state, m, env);
      RelayEvents(noted, m, from, env.now);
      AckEvents(relay.state, m, env);
      TraceAppend([Event(m, Received, from)] + relay.events, ack.events, id);
      TraceSame([Event(m, Received, from)] + relay.events, id, m.id == id);
      TraceSame(ack.events, id, false);
    }
  }

  /** A forwarding pass reports each of its sends. */
  predicate ReportsSends(e: Effect, m: Message, from: Option<NodeId>) {
    && |e.events| == |e.outs|
    && forall i :: 0 <= i < |e.events| ==>
         && e.events[i] == Event(m.(copiesMade := e.events[i].copies), Forwarded, from)
         && e.events[i].copies >= m.copiesMade
         && e.outs[i].msg.copiesMade == e.events[i].copies
  }

  lemma {:induction false} RouteEvents(s: NodeState, m: Message, from: Option<NodeId>, myP: real, cands: seq<NodeId>)
    ensures
      var e := Route(s, m, from, myP, cands);
      && ReportsSends(e, m, from) && e.msg.copiesMade >= m.copiesMade
      && e.msg == m.(copiesMade := e.msg.copiesMade)
  {
    if cands != [] {
      var init, peer := cands[..|cands| - 1], cands[|cands| - 1];
      RouteEvents(s, m, from, myP, init);
      OfferEvents(Route(s, m, from, myP, init), from, myP, peer);
      hide OfferTo;
    }
  }

  /** An offer reports its one send, or nothing. */
  lemma OfferEvents(e: Effect, from: Option<NodeId>, myP: real, peer: NodeId)
    ensures
      var after := OfferTo(e, from, myP, peer);
      || after == e
      || (&& after.msg == e.msg.(copiesMade := after.msg.copiesMade) && after.msg.copiesMade >= e.msg.copiesMade
          && after.outs == e.outs + [Direct(peer, after.msg)]
          && after.events == e.events + [Event(after.msg, Forwarded, from)])
  {
  }

  lemma RelayEvents(s: NodeState, m: Message, from: Option<NodeId>, now: int)
    ensures
      var e := RelayEffect(s, m, from, now);
      if Own(s, m) then e.events == []
      else if m.ttl <= 0 then e.events == [Event(m, Dropped, from)]
      else ReportsSends(e, DecrementTTL(m), from)
  {
    hide Route, Candidates, StatForDestination;
    var next := DecrementTTL(m);
    RouteEvents(s, next, from, StatForDestination(s.encounters, next.recipient, now), Candidates(s, from));
  }

  lemma AckEvents(s: NodeState, m: Message, env: Env)
    ensures forall i :: 0 <= i < |AckEffect(s, m, env).events| ==> AckEffect(s, m, env).events[i].msgId == env.freshId
  {
    hide Route, Candidates, StatForDestination;
    var ack := AckFor(s, m, env);
    var first := ack.(copiesMade := 1);
    RouteEvents(s, first, None, StatForDestination(s.encounters, first.recipient, env.now), Candidates(s, None));
  }

  // ---------------------------------------------------------- in the network

  /** What a step of the network makes node u do. */
  function ActsOf(net: Net, step: Step, u: NodeId): seq<Act> {
    if !Enabled(net, step) then []
    else
      match step
      case Send(at, m, env, _) => if at == u then [Sending(m, env)] else []
      case Arrive(index, env, _) =>
        var fl := net.flights[index];
        if fl.to == u then [Arrival(Call(fl.msg, Some(fl.from), env))] else []
      case PruneSprayed(at) => if at == u then [LedgerPruned] else []
      case Connect(at, peers) => if at == u then [PeersBecome(peers)] else []
      case PruneSeen(_) => []
      case Lose(_) => []
  }

  ghost function ActsAt(net: Net, steps: seq<Step>, u: NodeId): seq<Act>
    requires WellFormed(net)
  {
    if steps == [] then []
    else
      var k := |steps| - 1;
      ActsAt(net, steps[..k], u) + ActsOf(After(net, steps[..k]), steps[k], u)
  }

  /** Between two prunes of its dedup set, node u of a network is where its own acts have brought it. */
  lemma {:induction false} ActsFollow(net: Net, steps: seq<Step>, u: NodeId)
    requires WellFormed(net) && u < |net.nodes| && forall i :: 0 <= i < |steps| ==> steps[i] != PruneSeen(u)
    ensures After(net, steps).nodes[u] == Handle(net.nodes[u], ActsAt(net, steps, u)).state
  {
    hide Apply, Perform, ActsOf;
    if steps != [] {
      var k := |steps| - 1;
      ActsFollow(net, steps[..k], u);
      var acts, act := ActsAt(net, steps[..k], u), ActsOf(After(net, steps[..k]), steps[k], u);
      StepFollows(After(net, steps[..k]), steps[k], u);
      if act == [] {
        assert acts + act == acts;
      } else {
        assert (acts + act)[..|acts|] == acts;
      }
    }
  }

  lemma StepFollows(net: Net, step: Step, u: NodeId)
    requires WellFormed(net) && u < |net.nodes| && step != PruneSeen(u)
    ensures
      var acts := ActsOf(net, step, u);
      Apply(net, step).nodes[u] == if acts == [] then net.nodes[u] else Perform(net.nodes[u], acts[0]).state
    ensures |ActsOf(net, step, u)| <= 1
  {
    hide DeliverEffect, SendEffect, Spread;
  }

  lemma {:induction false} FreshReceiptsAt(net: Net, steps: seq<Step>, u: NodeId, id: MsgId)
    requires WellFormed(net) && forall i :: 0 <= i < |steps| && steps[i].Arrive? ==> steps[i].env.freshId != id
    ensures FreshReceipts(ActsAt(net, steps, u), id)
  {
    hide After;
    if steps != [] {
      FreshReceiptsAt(net, steps[..|steps| - 1], u, id);
    }
  }

  /** In every run of a network without a dedup prune at node u: what u reports about a message new to it
      follows the grammar exactly when u does not send the message, and begins with a forwarding exactly
      when u hands out copies of it before one comes back. */
  lemma ReportsInRuns(net: Net, steps: seq<Step>, u: NodeId, id: MsgId)
    requires WellFormed(net) && u < |net.nodes| && id !in net.nodes[u].seen
    requires forall i :: 0 <= i < |steps| ==> steps[i] != PruneSeen(u) && (steps[i].Arrive? ==> steps[i].env.freshId != id)
    ensures
      var acts := ActsAt(net, steps, u);
      var trace := TraceOf(Handle(net.nodes[u], acts).events, id);
      && After(net, steps).nodes[u] == Handle(net.nodes[u], acts).state
      && (Grammar(trace, ArrivalsOf(acts, id), net.nodes[u].me) <==> forall i :: 0 <= i < |acts| ==> !Sends(acts[i], id))
      && (ForwardsFirst(trace) <==> HandsOutFirst(net.nodes[u], acts, id))
  {
    hide After, ActsAt, Handle, Grammar, TraceOf, ForwardsFirst, HandsOutFirst;
    ActsFollow(net, steps, u);
    FreshReceiptsAt(net, steps, u, id);
    GrammarExactly(net.nodes[u], ActsAt(net, steps, u), id);
    ForwardsFirstExactly(net.nodes[u], ActsAt(net, steps, u), id);
  }
}
