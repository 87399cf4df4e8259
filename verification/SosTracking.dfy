/** How long an alert lives at least: a node that raised or accepted it keeps it for an hour, unless it is
    cancelled there, and rebroadcasts it whenever it gets to while hops are left. */
module SosTracking {
  import opened Prelude
  import opened Mesh
  import opened Network
  import opened CopyPotential
  import opened FloodCoverage
  import opened RelayLaws
  import opened Sos
  import opened SosLifetime

  const HOUR := 3600

  /** Every record is filed under its id and expires an hour after it was started. */
  ghost predicate Timely(w: World) {
    && Shape(w)
    && forall u, id :: 0 <= u < |w.alerts| && id in w.alerts[u] ==>
         w.alerts[u][id].msg.id == id && w.alerts[u][id].expiresAt == w.alerts[u][id].startedAt + HOUR
  }

  lemma TimelyKept(w: World, step: Move, delay: nat)
    requires Timely(w)
    ensures Timely(SosLifetime.Apply(w, step, delay)) && |SosLifetime.Apply(w, step, delay).alerts| == |w.alerts|
  {
    hide SendEffect, DeliverEffect, Spread;
    if SosLifetime.Enabled(w, step, delay) {
      match step
      case SendOther(at, m, env, listeners) =>
        StampedWithin(SendEffect(w.nodes[at], m, env).outs, at, listeners, |w.nodes|, w.now);
      case CopyArrives(index, env, listeners, _) =>
        var fl := w.copies[index].flight;
        assert w.copies[index] in w.copies;
        LeftId(w.nodes[fl.to], fl.msg, Some(fl.from), env);
        StampedWithin(DeliverEffect(w.nodes[fl.to], fl.msg, Some(fl.from), env).outs, fl.to, listeners, |w.nodes|, w.now);
      case RebroadcastAlert(at, id, listeners) =>
        StampedWithin([Publish(Rebroadcast(w.alerts[at][id]))], at, listeners, |w.nodes|, w.now);
      case ExpiryCheck(_) =>
      case Cancel(_, _) =>
      case Prune(_) =>
      case CopyLost(_) =>
      case Pass(_) =>
    }
  }

  lemma StampedWithin(outs: seq<Out>, at: NodeId, listeners: seq<NodeId>, n: nat, now: int)
    requires ValidListeners(n, listeners)
    ensures forall c :: c in Stamp(Spread(outs, at, listeners, n), now) ==> c.flight.to < n
  {
    hide Spread;
    SpreadMembers(outs, at, listeners, n);
    StampMembers(Spread(outs, at, listeners, n), now);
  }

  /** Time does not run backwards. */
  lemma {:induction false} ClockForward(w: World, steps: seq<Move>, delay: nat)
    requires Timely(w)
    ensures Timely(SosLifetime.After(w, steps, delay)) && |SosLifetime.After(w, steps, delay).alerts| == |w.alerts|
    ensures w.now <= SosLifetime.After(w, steps, delay).now
  {
    hide SosLifetime.Apply;
    if steps != [] {
      var k := |steps| - 1;
      ClockForward(w, steps[..k], delay);
      TimelyKept(SosLifetime.After(w, steps[..k], delay), steps[k], delay);
      ClockStep(SosLifetime.After(w, steps[..k], delay), steps[k], delay);
    }
  }

  lemma ClockStep(w: World, step: Move, delay: nat)
    requires Timely(w)
    ensures w.now <= SosLifetime.Apply(w, step, delay).now
  {
    hide SendEffect, DeliverEffect, Spread;
  }

  // ---------------------------------------------------------- raised and accepted

  /** The node tracks the alert: this message, since this time, for an hour. */
  ghost predicate Tracks(w: World, u: nat, m: Message, since: int) {
    && u < |w.alerts| && m.id in w.alerts[u]
    && var a := w.alerts[u][m.id]; a.msg == m && a.startedAt == since && a.expiresAt == since + HOUR
  }

  /** An alert is tracked from the moment it is raised. */
  lemma RaisedIsTracked(w: World, at: NodeId, m: Message, env: Env, listeners: seq<NodeId>)
    requires Timely(w) && at < |w.nodes| && ValidListeners(|w.nodes|, listeners)
    ensures Timely(Raise(w, at, m, env, listeners)) && Tracks(Raise(w, at, m, env, listeners), at, m, w.now)
  {
    hide SendEffect, Spread;
    StampedWithin(SendEffect(w.nodes[at], m, env).outs, at, listeners, |w.nodes|, w.now);
  }

  /** A first arrival of an alert that can be read and is not tracked yet is tracked from then on, as it was
      passed on; one that is tracked already stays as it was, but for the time it was last received. */
  lemma ArrivalIsTracked(w: World, index: nat, env: Env, listeners: seq<NodeId>, delay: nat)
    requires Timely(w) && SosLifetime.Enabled(w, CopyArrives(index, env, listeners, true), delay)
    requires
      var fl := w.copies[index].flight;
      fl.msg.typ == MsgType.Sos && fl.msg.sender.Peer? && fl.msg.recipient == Nobody
      && fl.to < |w.nodes| && fl.msg.id !in w.nodes[fl.to].seen
    ensures
      var fl := w.copies[index].flight;
      var m, me, after := fl.msg, w.nodes[fl.to].me, SosLifetime.Apply(w, CopyArrives(index, env, listeners, true), delay);
      var kept := if m.sender == Peer(me) || m.ttl <= 0 then m else m.(ttl := m.ttl - 1, hopCount := m.hopCount + 1);
      if m.id in w.alerts[fl.to] then
        var a := w.alerts[fl.to][m.id];
        Tracks(after, fl.to, a.msg, a.startedAt) && after.alerts[fl.to][m.id] == a.(receivedAt := w.now)
      else Tracks(after, fl.to, kept, w.now)
  {
    hide DeliverEffect, Spread;
    var fl := w.copies[index].flight;
    LeftId(w.nodes[fl.to], fl.msg, Some(fl.from), env);
    BroadcastShown(w.nodes[fl.to], fl.msg, Some(fl.from), env);
  }

  lemma BroadcastShown(s: NodeState, m: Message, from: Option<NodeId>, env: Env)
    requires m.id !in s.seen && m.recipient == Nobody
    ensures DeliverEffect(s, m, from, env).msg ==
              if m.sender == Peer(s.me) || m.ttl <= 0 then m else m.(ttl := m.ttl - 1, hopCount := m.hopCount + 1)
  {
    hide Noted, AckEffect;
    NotedMeStays(s, m, from, env.now);
    FloodingRelays(Noted(s, m, from, env.now), m, from, env.now);
  }

  lemma NotedMeStays(s: NodeState, m: Message, from: Option<NodeId>, now: int)
    ensures Noted(s, m, from, now).me == s.me
  {
    hide Recorded;
  }

  // -------------------------------------------------------------- the whole hour

  lemma StepTracks(w: World, step: Move, delay: nat, u: nat, m: Message, since: int)
    requires Timely(w) && Tracks(w, u, m, since) && w.now <= since + HOUR && step != Cancel(u, m.id)
    ensures Tracks(SosLifetime.Apply(w, step, delay), u, m, since)
  {
    hide SendEffect, DeliverEffect, Spread;
    if step.CopyArrives? && SosLifetime.Enabled(w, step, delay) {
      assert w.copies[step.index] in w.copies;
      var fl := w.copies[step.index].flight;
      LeftId(w.nodes[fl.to], fl.msg, Some(fl.from), step.env);
    }
  }

  /** A tracked alert that is not cancelled at its node is tracked in every state of every run up to an hour
      after it was raised or accepted there: same message, same start. */
  lemma {:induction false} AlertKept(w: World, steps: seq<Move>, delay: nat, u: nat, m: Message, since: int)
    requires Timely(w) && Tracks(w, u, m, since)
    requires forall i :: 0 <= i < |steps| ==> steps[i] != Cancel(u, m.id)
    requires SosLifetime.After(w, steps, delay).now <= since + HOUR
    ensures Tracks(SosLifetime.After(w, steps, delay), u, m, since)
  {
    hide SosLifetime.Apply, Tracks;
    if steps != [] {
      var k := |steps| - 1;
      ClockForward(w, steps[..k], delay);
      var before := SosLifetime.After(w, steps[..k], delay);
      ClockStep(before, steps[k], delay);
      AlertKept(w, steps[..k], delay, u, m, since);
      StepTracks(before, steps[k], delay, u, m, since);
    }
  }

  /** The copies of one rebroadcast: one to each listener, with one hop less to live and one more taken. */
  function Repeats(m: Message, from: NodeId, listeners: seq<NodeId>, now: int): seq<Copy> {
    seq(|listeners|, i requires 0 <= i < |listeners| =>
      Copy(Flight(Message(m.id, MsgType.Sos, m.sender, Nobody, m.ttl - 1, m.hopCount + 1, 0, m.body), from, listeners[i]), now))
  }

  /** A tracked alert can be rebroadcast exactly up to an hour after its start and with more than one hop
      left, and then each listener is sent one copy. */
  lemma TrackedIsRepeated(w: World, u: nat, m: Message, since: int, listeners: seq<NodeId>, delay: nat)
    requires Timely(w) && Tracks(w, u, m, since) && ValidListeners(|w.nodes|, listeners)
    ensures SosLifetime.Enabled(w, RebroadcastAlert(u, m.id, listeners), delay) <==> w.now <= since + HOUR && m.ttl >= 2
    ensures w.now <= since + HOUR && m.ttl >= 2 ==>
              SosLifetime.Apply(w, RebroadcastAlert(u, m.id, listeners), delay).copies
                == w.copies + Repeats(m, u, listeners, w.now)
  {
    hide Spread;
    var again := Rebroadcast(w.alerts[u][m.id]);
    PublishFlights(again, u, listeners, |w.nodes|);
    assert Stamp(Spread([Publish(again)], u, listeners, |w.nodes|), w.now) == Repeats(m, u, listeners, w.now);
  }

  /** An expiry check removes exactly the alerts whose hour is over. */
  lemma ExpiredAfterTheHour(w: World, u: nat, m: Message, since: int, delay: nat)
    requires Timely(w) && Tracks(w, u, m, since)
    ensures m.id in SosLifetime.Apply(w, ExpiryCheck(u), delay).alerts[u] <==> w.now <= since + HOUR
  {
  }

  /** A raised alert lives for an hour where it was raised: in every run in which it is not cancelled there,
      it is tracked and can be sent again with one hop less, up to that time. */
  lemma RaisedLivesAnHour(w: World, at: NodeId, m: Message, env: Env, listeners: seq<NodeId>, steps: seq<Move>,
                          delay: nat, hearers: seq<NodeId>)
    requires Timely(w) && at < |w.nodes| && ValidListeners(|w.nodes|, listeners) && m.ttl >= 2
    requires forall i :: 0 <= i < |steps| ==> steps[i] != Cancel(at, m.id)
    requires Timely(Raise(w, at, m, env, listeners))
    requires
      var end := SosLifetime.After(Raise(w, at, m, env, listeners), steps, delay);
      end.now <= w.now + 3600 && ValidListeners(|end.nodes|, hearers)
    ensures
      var end := SosLifetime.After(Raise(w, at, m, env, listeners), steps, delay);
      && Tracks(end, at, m, w.now)
      && Shape(end) && SosLifetime.Enabled(end, RebroadcastAlert(at, m.id, hearers), delay)
      && SosLifetime.Apply(end, RebroadcastAlert(at, m.id, hearers), delay).copies
           == end.copies + Repeats(m, at, hearers, end.now)
  {
    hide Raise, SosLifetime.After, SosLifetime.Apply, SosLifetime.Enabled, Tracks;
    RaisedIsTracked(w, at, m, env, listeners);
    var raised := Raise(w, at, m, env, listeners);
    ClockForward(raised, steps, delay);
    AlertKept(raised, steps, delay, at, m, w.now);
    TrackedIsRepeated(SosLifetime.After(raised, steps, delay), at, m, w.now, hearers, delay);
  }
}
