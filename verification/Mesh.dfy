/** The live relay: what a node does with a message, as a function of its state. */
module Mesh {
  import opened Prelude
  import opened Routing

  type MsgId = string

  /** An address field: empty, a peer identity, or text that does not decode to one. */
  datatype Party = Nobody | Peer(id: NodeId) | Unreadable(text: string)

  datatype MsgType = Chat | File | Sos | DeliveryAck | PeerInfo | KeyExchange | Other(name: string)

  /** The envelope. `body` stands for the fields the relay never reads. */
  datatype Message = Message(
    id: MsgId, typ: MsgType, sender: Party, recipient: Party, ttl: int, hopCount: int, copiesMade: int, body: string)

  const ACK_TTL := 8

  /** One hop: the lifetime goes down, the hop count up. */
  function DecrementTTL(m: Message): (r: Message)
    ensures m.ttl > 0 ==> r.ttl + r.hopCount == m.ttl + m.hopCount
    ensures r.hopCount == m.hopCount + 1 && (m.ttl <= 0 ==> r.ttl == m.ttl)
    ensures r == m.(ttl := r.ttl, hopCount := r.hopCount)
  {
    m.(ttl := if m.ttl > 0 then m.ttl - 1 else m.ttl, hopCount := m.hopCount + 1)
  }

  function NewDeliveryAck(id: MsgId, me: NodeId, recipient: Party): Message {
    Message(id, DeliveryAck, Peer(me), recipient, 4, 0, 0, "")
  }

  datatype RelayAction = Received | Forwarded | Dropped | Sent

  datatype RelayEvent = RelayEvent(
    msgId: MsgId, typ: MsgType, action: RelayAction, from: Option<NodeId>, hops: int, ttl: int, copies: int)

  function Event(m: Message, action: RelayAction, from: Option<NodeId>): RelayEvent {
    RelayEvent(m.id, m.typ, action, from, m.hopCount, m.ttl, m.copiesMade)
  }

  /** A local send is reported with no hops, whatever the message carries. */
  function SentEvent(m: Message): RelayEvent {
    Event(m, Sent, None).(hops := 0)
  }

  /** What a node hands to the transport. */
  datatype Out = Direct(to: NodeId, msg: Message) | Publish(msg: Message)

  type Ledger = map<MsgId, set<NodeId>>

  datatype NodeState = NodeState(
    me: NodeId, peers: set<NodeId>, seen: set<MsgId>, encounters: Table, sprayed: Ledger,
    budget: int, forwarder: Option<Forwarder>)

  /** The new node state, what was sent and reported, and the message object as it was left. */
  datatype Effect = Effect(state: NodeState, outs: seq<Out>, events: seq<RelayEvent>, msg: Message)

  /** What the environment supplies to a handler: the clock, whether a direct stream to the recipient
      can be opened, and the next random message id. */
  datatype Env = Env(now: int, directOk: bool, freshId: MsgId)

  function SprayedTo(ledger: Ledger, id: MsgId): set<NodeId> {
    if id in ledger then ledger[id] else {}
  }

  function MarkSprayed(ledger: Ledger, id: MsgId, peer: NodeId): Ledger {
    ledger[id := SprayedTo(ledger, id) + {peer}]
  }

  function ForwarderOf(s: NodeState): Forwarder {
    if s.forwarder.Some? then s.forwarder.value else SprayAndWait(s.budget)
  }

  function AgingUnits(stat: EncounterStat, now: int): int {
    if now <= stat.lastSeen then 0 else (now - stat.lastSeen) / AGE_UNITS
  }

  /** Our predictability for an address, aged to the present. */
  function StatForDestination(encounters: Table, dst: Party, now: int): real {
    if dst.Peer? && dst.id in encounters then
      Aged(encounters[dst.id].p, AgingUnits(encounters[dst.id], now))
    else 0.0
  }

  /** A meeting on the live mesh: aging since the last one, then the encounter without transit. */
  ghost function Recorded(encounters: Table, peer: NodeId, now: int): Table {
    var stat := if peer in encounters then encounters[peer] else FRESH_STAT.(peer := Some(peer));
    encounters[peer := Encountered(stat.(p := Aged(stat.p, AgingUnits(stat, now))), now, map[])]
  }

  predicate IsLeast(x: NodeId, s: set<NodeId>) {
    x in s && forall y :: y in s ==> x <= y
  }

  function Least(s: set<NodeId>): (x: NodeId)
    requires s != {}
    ensures IsLeast(x, s)
  {
    LeastExists(s);
    var x :| IsLeast(x, s);
    x
  }

  lemma {:induction false} LeastExists(s: set<NodeId>)
    requires s != {}
    ensures exists x :: IsLeast(x, s)
  {
    var x: NodeId :| x in s;
    var rest := s - {x};
    if rest == {} {
      assert s == {x};
      assert IsLeast(x, s);
    } else {
      LeastExists(rest);
      var y: NodeId :| IsLeast(y, rest);
      assert forall z :: z in s ==> z == x || z in rest;
      assert IsLeast(if x <= y then x else y, s);
    }
  }

  /** The elements in ascending order. */
  function Ascending(s: set<NodeId>): (r: seq<NodeId>)
    ensures forall x :: x in r <==> x in s
    ensures Distinct(r) && |r| == |s|
    ensures s != {} ==> r[0] == Least(s)
    decreases |s|
  {
    if s == {} then []
    else
      var x := Least(s);
      [x] + Ascending(s - {x})
  }

  /** Known peers a message may be handed to: not ourselves, not the peer it came from. */
  function Eligible(s: NodeState, from: Option<NodeId>): set<NodeId> {
    s.peers - {s.me} - (if from.Some? then {from.value} else {})
  }

  function Candidates(s: NodeState, from: Option<NodeId>): seq<NodeId> {
    Ascending(Eligible(s, from))
  }

  /** Offers the message to the candidates in turn. The copy count travels with the message. */
  function Route(s: NodeState, m: Message, from: Option<NodeId>, myP: real, cands: seq<NodeId>): Effect {
    if cands == [] then Effect(s, [], [], m)
    else OfferTo(Route(s, m, from, myP, cands[..|cands| - 1]), from, myP, cands[|cands| - 1])
  }

  /** One candidate: the forwarder's decision on the message as it stands. */
  function OfferTo(e: Effect, from: Option<NodeId>, myP: real, peer: NodeId): Effect {
    var holds := peer in SprayedTo(e.state.sprayed, e.msg.id);
    match Decide(ForwarderOf(e.state), e.msg.recipient, e.msg.copiesMade, Peer(peer), myP, 0.0, holds)
    case Spray => HandCopy(e, e.msg.(copiesMade := e.msg.copiesMade + 1), from, peer)
    case Deliver => HandCopy(e, e.msg, from, peer)
    case Handoff => HandCopy(e, e.msg, from, peer)
    case Keep => e
    case Dup => e
  }

  function HandCopy(e: Effect, m: Message, from: Option<NodeId>, peer: NodeId): Effect {
    Effect(e.state.(sprayed := MarkSprayed(e.state.sprayed, m.id, peer)),
           e.outs + [Direct(peer, m)], e.events + [Event(m, Forwarded, from)], m)
  }

  function RouteToPeers(s: NodeState, m: Message, from: Option<NodeId>, now: int): Effect {
    Route(s, m, from, StatForDestination(s.encounters, m.recipient, now), Candidates(s, from))
  }

  /** Destination-aware routing applies to addressed messages on nodes with a budget. */
  predicate Routes(s: NodeState, m: Message) {
    m.recipient != Nobody && s.budget > 0
  }

  function SendEffect(s: NodeState, m: Message, env: Env): Effect {
    if Routes(s, m) then
      var first := m.(copiesMade := if m.copiesMade < 1 then 1 else m.copiesMade);
      var e := RouteToPeers(s, first, None, env.now);
      e.(events := [SentEvent(first)] + e.events)
    else
      Effect(s, [if m.recipient.Peer? && env.directOk then Direct(m.recipient.id, m) else Publish(m)],
             [SentEvent(m)], m)
  }

  function ForwardEffect(s: NodeState, m: Message, from: Option<NodeId>, now: int): Effect {
    if Routes(s, m) then RouteToPeers(s, m, from, now)
    else Effect(s, [Publish(m)], [Event(m, Forwarded, from)], m)
  }

  predicate Own(s: NodeState, m: Message) {
    m.sender == Peer(s.me)
  }

  /** The node after dedup, the encounter and the sender's address have been recorded. */
  ghost function Noted(s: NodeState, m: Message, from: Option<NodeId>, now: int): NodeState {
    s.(seen := s.seen + {m.id},
       encounters := if from.Some? then Recorded(s.encounters, from.value, now) else s.encounters,
       peers := if m.sender.Peer? && m.sender.id != s.me then s.peers + {m.sender.id} else s.peers)
  }

  /** The relaying of a first arrival. */
  function RelayEffect(s: NodeState, m: Message, from: Option<NodeId>, now: int): Effect {
    if Own(s, m) then Effect(s, [], [], m)
    else if m.ttl > 0 then ForwardEffect(s, DecrementTTL(m), from, now)
    else Effect(s, [], [Event(m, Dropped, from)], m)
  }

  predicate WantsAck(s: NodeState, m: Message) {
    m.recipient == Peer(s.me) && !Own(s, m) && (m.typ.Chat? || m.typ.File? || m.typ.Sos?)
  }

  function AckFor(s: NodeState, m: Message, env: Env): Message {
    NewDeliveryAck(env.freshId, s.me, m.sender).(ttl := ACK_TTL)
  }

  function AckEffect(s: NodeState, m: Message, env: Env): Effect {
    if WantsAck(s, m) then SendEffect(s, AckFor(s, m, env), env) else Effect(s, [], [], m)
  }

  /** The handling of an arrival. A first arrival is also passed to the application. */
  ghost function DeliverEffect(s: NodeState, m: Message, from: Option<NodeId>, env: Env): Effect {
    if m.id in s.seen then Effect(s, [], [Event(m, Dropped, from)], m)
    else
      var relay := RelayEffect(Noted(s, m, from, env.now), m, from, env.now);
      var ack := AckEffect(relay.state, m, env);
      Effect(ack.state, relay.outs + ack.outs,
             [Event(m, Received, from)] + relay.events + ack.events, relay.msg)
  }
}
