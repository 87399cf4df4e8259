/** No alert is immortal: relays, rebroadcasts and re-acceptances after dedup prunes all spend hops, and
    every hop is worth one active duration and one message delay. */
module SosLifetime {
  import opened Prelude
  import opened Mesh
  import opened Network
  import opened CopyPotential
  import opened FloodCoverage
  import opened Sos

  /** A copy on its way, with the time it was sent. */
  datatype Copy = Copy(flight: Flight, sentAt: int)

  datatype World = World(now: int, nodes: seq<NodeState>, alerts: seq<Alerts>, copies: seq<Copy>)

  /** What can happen next. A copy arrives within the delay or not at all; time passes freely. */
  datatype Move =
    | SendOther(at: NodeId, msg: Message, env: Env, listeners: seq<NodeId>)
    | CopyArrives(index: nat, env: Env, listeners: seq<NodeId>, parses: bool)
    | RebroadcastAlert(at: NodeId, id: MsgId, listeners: seq<NodeId>)
    | ExpiryCheck(at: NodeId)
    | Cancel(at: NodeId, id: MsgId)
    | Prune(at: NodeId)
    | CopyLost(index: nat)
    | Pass(time: nat)

  predicate Shape(w: World) {
    && |w.alerts| == |w.nodes|
    && forall c :: c in w.copies ==> c.flight.to < |w.nodes|
  }

  predicate Enabled(w: World, step: Move, delay: nat) {
    match step
    case SendOther(at, _, _, listeners) => at < |w.nodes| && ValidListeners(|w.nodes|, listeners)
    case CopyArrives(index, _, listeners, _) =>
      index < |w.copies| && w.now <= w.copies[index].sentAt + delay && ValidListeners(|w.nodes|, listeners)
    case RebroadcastAlert(at, id, listeners) =>
      && at < |w.nodes| && at < |w.alerts| && id in w.alerts[at] && Rebroadcasts(w.alerts[at][id], w.now)
      && ValidListeners(|w.nodes|, listeners)
    case ExpiryCheck(at) => at < |w.alerts|
    case Cancel(at, _) => at < |w.alerts|
    case Prune(at) => at < |w.nodes|
    case CopyLost(index) => index < |w.copies|
    case Pass(_) => true
  }

  function Stamp(flights: seq<Flight>, now: int): seq<Copy> {
    seq(|flights|, i requires 0 <= i < |flights| => Copy(flights[i], now))
  }

  /** The manager sees a first arrival as the relay left it. */
  ghost function AlertsAfter(alerts: Alerts, s: NodeState, m: Message, left: Message, parses: bool, now: int): Alerts {
    if m.id !in s.seen && m.typ == MsgType.Sos && parses && m.sender.Peer? then Accepted(alerts, left, now) else alerts
  }

  ghost function Apply(w: World, step: Move, delay: nat): World
    requires Shape(w)
  {
    if !Enabled(w, step, delay) then w
    else
      match step
      case SendOther(at, m, env, listeners) =>
        var e := SendEffect(w.nodes[at], m, env);
        w.(nodes := w.nodes[at := e.state],
           copies := w.copies + Stamp(Spread(e.outs, at, listeners, |w.nodes|), w.now))
      case CopyArrives(index, env, listeners, parses) =>
        var fl := w.copies[index].flight;
        var s := w.nodes[fl.to];
        var e := DeliverEffect(s, fl.msg, Some(fl.from), env);
        w.(nodes := w.nodes[fl.to := e.state],
           alerts := w.alerts[fl.to := AlertsAfter(w.alerts[fl.to], s, fl.msg, e.msg, parses, w.now)],
           copies := Without(w.copies, index) + Stamp(Spread(e.outs, fl.to, listeners, |w.nodes|), w.now))
      case RebroadcastAlert(at, id, listeners) =>
        w.(copies := w.copies + Stamp(Spread([Publish(Rebroadcast(w.alerts[at][id]))], at, listeners, |w.nodes|), w.now))
      case ExpiryCheck(at) => w.(alerts := w.alerts[at := Expired(w.alerts[at], w.now)])
      case Cancel(at, id) => w.(alerts := w.alerts[at := w.alerts[at] - {id}])
      case Prune(at) => w.(nodes := w.nodes[at := w.nodes[at].(seen := {})])
      case CopyLost(index) => w.(copies := Without(w.copies, index))
      case Pass(time) => w.(now := w.now + time)
  }

  /** The alert followed: its id, when it was raised, and the longest message delay. */
  datatype Raised = Raised(id: MsgId, at: int, delay: nat)

  /** The time `hops` hops after the alert was raised, at the latest. */
  function Deadline(r: Raised, hops: int): int {
    r.at + hops * (ACTIVE_DURATION + r.delay)
  }

  lemma NextDeadline(r: Raised, hops: int)
    ensures Deadline(r, hops + 1) == Deadline(r, hops) + ACTIVE_DURATION + r.delay
  {
    assert (hops + 1) * (ACTIVE_DURATION + r.delay) == hops * (ACTIVE_DURATION + r.delay) + (ACTIVE_DURATION + r.delay);
  }

  predicate AlertMessage(m: Message) {
    m.recipient == Nobody && 0 <= m.ttl <= MAX_TTL
  }

  /** A copy that has spent hops was sent within as many deadlines. */
  predicate CopyInTime(c: Copy, r: Raised) {
    c.flight.msg.id == r.id ==>
      AlertMessage(c.flight.msg) && c.sentAt <= Deadline(r, MAX_TTL - c.flight.msg.ttl)
  }

  /** A record that has spent hops expires within one deadline more. */
  predicate RecordInTime(a: Alert, r: Raised) {
    a.msg.id == r.id && AlertMessage(a.msg) && a.expiresAt <= Deadline(r, MAX_TTL + 1 - a.msg.ttl)
  }

  ghost predicate InTime(w: World, r: Raised) {
    && Shape(w)
    && (forall c :: c in w.copies ==> CopyInTime(c, r))
    && (forall u :: 0 <= u < |w.alerts| && r.id in w.alerts[u] ==> RecordInTime(w.alerts[u][r.id], r))
  }

  /** Nobody else uses the alert's id, and it is raised once. */
  predicate Follows(step: Move, r: Raised) {
    match step
    case SendOther(_, m, _, _) => m.id != r.id
    case CopyArrives(_, env, _, _) => env.freshId != r.id
    case RebroadcastAlert(_, _, _) => true
    case ExpiryCheck(_) => true
    case Cancel(_, _) => true
    case Prune(_) => true
    case CopyLost(_) => true
    case Pass(_) => true
  }

  lemma StampMembers(flights: seq<Flight>, now: int)
    ensures forall c :: c in Stamp(flights, now) ==> c.flight in flights && c.sentAt == now
  {
  }

  /** An arriving alert is left with at most the hops it came with, and passed on with one less. */
  lemma BroadcastLeft(s: NodeState, m: Message, from: Option<NodeId>, env: Env)
    requires m.recipient == Nobody && m.ttl >= 0
    ensures
      var e := DeliverEffect(s, m, from, env);
      && e.msg.id == m.id && e.msg.recipient == Nobody && 0 <= e.msg.ttl <= m.ttl
      && (e.outs == [] || (m.ttl > 0 && e.outs == [Publish(DecrementTTL(m))]))
  {
    BroadcastOuts(s, m, from, env);
  }

  lemma ArrivalInTime(w: World, index: nat, env: Env, listeners: seq<NodeId>, parses: bool, r: Raised)
    requires InTime(w, r) && env.freshId != r.id && Enabled(w, CopyArrives(index, env, listeners, parses), r.delay)
    requires w.copies[index].flight.msg.id == r.id
    ensures InTime(Apply(w, CopyArrives(index, env, listeners, parses), r.delay), r)
  {
    hide Spread, DeliverEffect;
    var c := w.copies[index];
    assert c in w.copies;
    var m, s, from, n := c.flight.msg, w.nodes[c.flight.to], Some(c.flight.from), |w.nodes|;
    var e := DeliverEffect(s, m, from, env);
    BroadcastLeft(s, m, from, env);
    NextDeadline(r, MAX_TTL - m.ttl);
    if e.outs == [] {
      NothingSpread(c.flight.to, listeners, n);
    } else {
      PublishFlights(DecrementTTL(m), c.flight.to, listeners, n);
    }
    DeadlineMonotone(r, MAX_TTL + 1 - m.ttl, MAX_TTL + 1 - e.msg.ttl);
    StampMembers(Spread(e.outs, c.flight.to, listeners, n), w.now);
    var after := Apply(w, CopyArrives(index, env, listeners, parses), r.delay);
    forall x | x in after.copies
      ensures CopyInTime(x, r) && x.flight.to < n
    {
      assert x in w.copies || x in Stamp(Spread(e.outs, c.flight.to, listeners, n), w.now);
    }
  }

  lemma DeadlineMonotone(r: Raised, a: int, b: int)
    requires a <= b
    ensures Deadline(r, a) <= Deadline(r, b)
  {
    assert (b - a) * (ACTIVE_DURATION + r.delay) >= 0;
    assert b * (ACTIVE_DURATION + r.delay) == a * (ACTIVE_DURATION + r.delay) + (b - a) * (ACTIVE_DURATION + r.delay);
  }

  lemma OtherArrivalInTime(w: World, index: nat, env: Env, listeners: seq<NodeId>, parses: bool, r: Raised)
    requires InTime(w, r) && env.freshId != r.id && Enabled(w, CopyArrives(index, env, listeners, parses), r.delay)
    requires w.copies[index].flight.msg.id != r.id
    ensures InTime(Apply(w, CopyArrives(index, env, listeners, parses), r.delay), r)
  {
    hide Spread, SendEffect, RelayEffect, AckEffect, Noted;
    var c, n := w.copies[index], |w.nodes|;
    assert c in w.copies;
    var m, s, from := c.flight.msg, w.nodes[c.flight.to], Some(c.flight.from);
    var e := DeliverEffect(s, m, from, env);
    OtherArrivalFlights(s, m, from, env, r.id, c.flight.to, listeners, n);
    SpreadMembers(e.outs, c.flight.to, listeners, n);
    StampMembers(Spread(e.outs, c.flight.to, listeners, n), w.now);
    RelayOuts(Noted(s, m, from, env.now), m, from, env.now);
    assert e.msg.id == m.id;
    var after := Apply(w, CopyArrives(index, env, listeners, parses), r.delay);
    forall x | x in after.copies
      ensures CopyInTime(x, r) && x.flight.to < n
    {
      assert x in w.copies || x in Stamp(Spread(e.outs, c.flight.to, listeners, n), w.now);
    }
  }

  lemma RebroadcastInTime(w: World, at: NodeId, id: MsgId, listeners: seq<NodeId>, r: Raised)
    requires InTime(w, r) && Enabled(w, RebroadcastAlert(at, id, listeners), r.delay)
    requires forall u, k :: 0 <= u < |w.alerts| && k in w.alerts[u] ==> w.alerts[u][k].msg.id == k
    ensures InTime(Apply(w, RebroadcastAlert(at, id, listeners), r.delay), r)
  {
    hide Spread;
    var a, n := w.alerts[at][id], |w.nodes|;
    var m := Rebroadcast(a);
    PublishFlights(m, at, listeners, n);
    var flights := Spread([Publish(m)], at, listeners, n);
    StampMembers(flights, w.now);
    var after := Apply(w, RebroadcastAlert(at, id, listeners), r.delay);
    forall x | x in after.copies
      ensures CopyInTime(x, r) && x.flight.to < n
    {
      assert x in w.copies || x in Stamp(flights, w.now);
    }
  }

  /** Alerts are filed under their message's id. */
  ghost predicate Filed(w: World) {
    forall u, k :: 0 <= u < |w.alerts| && k in w.alerts[u] ==> w.alerts[u][k].msg.id == k
  }

  lemma StepInTime(w: World, step: Move, r: Raised)
    requires InTime(w, r) && Filed(w) && Follows(step, r)
    ensures InTime(Apply(w, step, r.delay), r) && Filed(Apply(w, step, r.delay))
  {
    hide Spread, SendEffect, DeliverEffect;
    if Enabled(w, step, r.delay) {
      match step
      case SendOther(at, m, env, listeners) =>
        SendOuts(w.nodes[at], m, env);
        var flights := Spread(SendEffect(w.nodes[at], m, env).outs, at, listeners, |w.nodes|);
        OtherFlights(SendEffect(w.nodes[at], m, env).outs, m, r.id, at, listeners, |w.nodes|);
        SpreadMembers(SendEffect(w.nodes[at], m, env).outs, at, listeners, |w.nodes|);
        StampMembers(flights, w.now);
      case CopyArrives(index, env, listeners, parses) =>
        LeftId(w.nodes[w.copies[index].flight.to], w.copies[index].flight.msg, Some(w.copies[index].flight.from), env);
        if w.copies[index].flight.msg.id == r.id {
          ArrivalInTime(w, index, env, listeners, parses, r);
        } else {
          OtherArrivalInTime(w, index, env, listeners, parses, r);
        }
      case RebroadcastAlert(at, id, listeners) => RebroadcastInTime(w, at, id, listeners, r);
      case ExpiryCheck(_) =>
      case Cancel(_, _) =>
      case Prune(_) =>
      case CopyLost(_) =>
      case Pass(_) =>
    }
  }

  lemma LeftId(s: NodeState, m: Message, from: Option<NodeId>, env: Env)
    ensures DeliverEffect(s, m, from, env).msg.id == m.id
  {
    hide SendEffect, RelayEffect, AckEffect, Noted;
    RelayOuts(Noted(s, m, from, env.now), m, from, env.now);
  }

  ghost function After(w: World, steps: seq<Move>, delay: nat): World
    requires Shape(w)
  {
    if steps == [] then w
    else
      var before := After(w, steps[..|steps| - 1], delay);
      if Shape(before) then Apply(before, steps[|steps| - 1], delay) else before
  }

  lemma {:induction false} RunInTime(w: World, steps: seq<Move>, r: Raised)
    requires InTime(w, r) && Filed(w) && forall i :: 0 <= i < |steps| ==> Follows(steps[i], r)
    ensures InTime(After(w, steps, r.delay), r) && Filed(After(w, steps, r.delay))
  {
    hide Apply, Follows, Filed;
    if steps != [] {
      var k := |steps| - 1;
      RunInTime(w, steps[..k], r);
      StepInTime(After(w, steps[..k], r.delay), steps[k], r);
    }
  }

  /** Raising the alert: the sender tracks it and publishes it with all its hops to live. */
  ghost function Raise(w: World, at: NodeId, m: Message, env: Env, listeners: seq<NodeId>): World
    requires Shape(w) && at < |w.nodes|
  {
    var e := SendEffect(w.nodes[at], m, env);
    w.(alerts := w.alerts[at := w.alerts[at][m.id := NewAlert(m, w.now, Peer(at))]],
       nodes := w.nodes[at := e.state],
       copies := w.copies + Stamp(Spread(e.outs, at, listeners, |w.nodes|), w.now))
  }

  ghost predicate Unheard(w: World, id: MsgId) {
    && Shape(w) && Filed(w)
    && (forall c :: c in w.copies ==> c.flight.msg.id != id)
    && (forall u :: 0 <= u < |w.alerts| ==> id !in w.alerts[u])
  }

  lemma RaiseInTime(w: World, at: NodeId, m: Message, env: Env, listeners: seq<NodeId>, r: Raised)
    requires Unheard(w, m.id) && at < |w.nodes| && ValidListeners(|w.nodes|, listeners)
    requires m.recipient == Nobody && m.ttl == MAX_TTL && r.id == m.id && r.at == w.now
    ensures InTime(Raise(w, at, m, env, listeners), r) && Filed(Raise(w, at, m, env, listeners))
  {
    hide Spread;
    NextDeadline(r, 0);
    PublishFlights(m, at, listeners, |w.nodes|);
    StampMembers(Spread([Publish(m)], at, listeners, |w.nodes|), w.now);
  }

  /** In every run after an alert is raised, with dedup pruned at any moment: a record stored with x hops
      left expires by the (65 - x)-th deadline, and so no record expires after the 65th. */
  lemma NoImmortalAlert(w: World, at: NodeId, m: Message, env: Env, listeners: seq<NodeId>, steps: seq<Move>,
                        r: Raised, u: nat)
    requires Unheard(w, m.id) && at < |w.nodes| && ValidListeners(|w.nodes|, listeners)
    requires m.recipient == Nobody && m.ttl == MAX_TTL && r.id == m.id && r.at == w.now
    requires forall i :: 0 <= i < |steps| ==> Follows(steps[i], r)
    requires Shape(Raise(w, at, m, env, listeners))
    ensures
      var end := After(Raise(w, at, m, env, listeners), steps, r.delay);
      u < |end.alerts| && r.id in end.alerts[u] ==>
        && 0 <= end.alerts[u][r.id].msg.ttl
        && end.alerts[u][r.id].expiresAt <= Deadline(r, MAX_TTL + 1 - end.alerts[u][r.id].msg.ttl)
        && end.alerts[u][r.id].expiresAt <= Deadline(r, MAX_TTL + 1)
  {
    hide After, Apply, Raise, Deadline;
    RaiseInTime(w, at, m, env, listeners, r);
    RunInTime(Raise(w, at, m, env, listeners), steps, r);
    var end := After(Raise(w, at, m, env, listeners), steps, r.delay);
    if u < |end.alerts| && r.id in end.alerts[u] {
      DeadlineMonotone(r, MAX_TTL + 1 - end.alerts[u][r.id].msg.ttl, MAX_TTL + 1);
    }
  }

  /** After the 65th deadline the alert is dead: a node that no longer tracks it never does again, nobody
      rebroadcasts it, and the next expiry check removes it wherever it is still filed. */
  lemma DeadAfterDeadline(w: World, step: Move, r: Raised, u: nat)
    requires InTime(w, r) && Filed(w) && Follows(step, r) && u < |w.alerts|
    requires w.now > Deadline(r, MAX_TTL + 1)
    ensures r.id !in w.alerts[u] ==> r.id !in Apply(w, step, r.delay).alerts[u]
    ensures r.id in w.alerts[u] ==> !Rebroadcasts(w.alerts[u][r.id], w.now)
    ensures r.id !in Apply(w, ExpiryCheck(u), r.delay).alerts[u]
  {
    hide Spread, SendEffect, DeliverEffect;
    if r.id in w.alerts[u] {
      DeadlineMonotone(r, MAX_TTL + 1 - w.alerts[u][r.id].msg.ttl, MAX_TTL + 1);
    }
    if step.CopyArrives? && Enabled(w, step, r.delay) {
      var c := w.copies[step.index];
      assert c in w.copies;
      LeftId(w.nodes[c.flight.to], c.flight.msg, Some(c.flight.from), step.env);
      if c.flight.msg.id == r.id {
        DeadlineMonotone(r, MAX_TTL - c.flight.msg.ttl, MAX_TTL);
        NextDeadline(r, MAX_TTL);
      }
    }
  }
}
