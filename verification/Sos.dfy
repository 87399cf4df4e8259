/** Emergency alerts: the manager that tracks, rebroadcasts and expires them, on one node. */
module Sos {
  import opened Prelude
  import opened Mesh

  /** In seconds. */
  const ACTIVE_DURATION := 3600
  const MAX_TTL := 64

  datatype Alert = Alert(msg: Message, startedAt: int, expiresAt: int, ackCount: nat, receivedAt: int, sender: Party)

  type Alerts = map<MsgId, Alert>

  datatype SosError = BadPayload | BadSender

  /** What the manager reads of an alert's payload. */
  datatype Payload = Garbled | Parsed(ackRequired: bool)

  function NewAlert(msg: Message, now: int, sender: Party): Alert {
    Alert(msg, now, now + ACTIVE_DURATION, 0, now, sender)
  }

  /** An alert already tracked only has its receipt time refreshed. */
  function Accepted(alerts: Alerts, msg: Message, now: int): Alerts {
    if msg.id in alerts then alerts[msg.id := alerts[msg.id].(receivedAt := now)]
    else alerts[msg.id := NewAlert(msg, now, msg.sender)]
  }

  predicate Outlived(a: Alert, now: int) {
    now > a.expiresAt
  }

  function Expired(alerts: Alerts, now: int): Alerts {
    map id | id in alerts && !Outlived(alerts[id], now) :: alerts[id]
  }

  /** The rebroadcast of an alert: one less to live, one hop more. */
  function Rebroadcast(a: Alert): Message {
    Message(a.msg.id, MsgType.Sos, a.msg.sender, Nobody, a.msg.ttl - 1, a.msg.hopCount + 1, 0, a.msg.body)
  }

  predicate Rebroadcasts(a: Alert, now: int) {
    !Outlived(a, now) && a.msg.ttl - 1 > 0
  }

  /** These ids, each once, are those of the alerts due for a rebroadcast. */
  ghost predicate Due(ids: seq<MsgId>, alerts: Alerts, now: int) {
    Distinct(ids) && forall id :: id in ids <==> id in alerts && Rebroadcasts(alerts[id], now)
  }

  ghost function RebroadcastsOf(ids: seq<MsgId>, alerts: Alerts): seq<Message>
    requires forall id :: id in ids ==> id in alerts
  {
    seq(|ids|, i requires 0 <= i < |ids| => Rebroadcast(alerts[ids[i]]))
  }

  class Manager {
    const me: NodeId
    var alerts: Alerts
    /** Messages published, receipts sent on direct streams, and alert ids reported as ended. */
    var published: seq<Message>
    var receipts: seq<Out>
    var ended: seq<MsgId>

    constructor (me: NodeId)
      ensures this.me == me && alerts == map[] && published == [] && receipts == [] && ended == []
    {
      this.me := me;
      alerts, published, receipts, ended := map[], [], [], [];
    }

    /** Tracks the alert, then sends it; an alert that could not be sent is not tracked. */
    method SendAlert(msg: Message, now: int, sendOk: bool)
      modifies this`alerts, this`published
      ensures alerts == if sendOk then old(alerts)[msg.id := NewAlert(msg, now, Peer(me))] else old(alerts) - {msg.id}
      ensures published == if sendOk then old(published) + [msg] else old(published)
    {
      alerts := alerts[msg.id := NewAlert(msg, now, Peer(me))];
      if !sendOk {
        alerts := alerts - {msg.id};
        return;
      }
      published := published + [msg];
    }

    /** A new alert is tracked and, if it asks for that, answered with a receipt straight to its sender; an
        alert already tracked is only refreshed. */
    method HandleIncomingSOS(msg: Message, payload: Payload, freshId: MsgId, now: int) returns (r: Result<(), SosError>)
      modifies this`alerts, this`receipts
      ensures r == (if msg.typ != MsgType.Sos || payload.Garbled? then Err(BadPayload)
                    else if !msg.sender.Peer? then Err(BadSender) else Ok(()))
      ensures alerts == if r.Ok? then Accepted(old(alerts), msg, now) else old(alerts)
      ensures receipts == if r.Ok? && msg.id !in old(alerts) && payload.ackRequired
                          then old(receipts) + [Direct(msg.sender.id, NewDeliveryAck(freshId, me, msg.sender))]
                          else old(receipts)
    {
      if msg.typ != MsgType.Sos || payload.Garbled? {
        return Err(BadPayload);
      }
      if !msg.sender.Peer? {
        return Err(BadSender);
      }
      if msg.id in alerts {
        alerts := alerts[msg.id := alerts[msg.id].(receivedAt := now)];
        return Ok(());
      }
      alerts := alerts[msg.id := NewAlert(msg, now, msg.sender)];
      if payload.ackRequired {
        receipts := receipts + [Direct(msg.sender.id, NewDeliveryAck(freshId, me, msg.sender))];
      }
      return Ok(());
    }

    method CancelAlert(id: MsgId)
      modifies this`alerts, this`ended
      ensures alerts == old(alerts) - {id}
      ensures ended == old(ended) + if id in old(alerts) then [id] else []
    {
      if id in alerts {
        alerts := alerts - {id};
        ended := ended + [id];
      }
    }

    method HandleDeliveryAck(id: MsgId)
      modifies this`alerts
      ensures alerts == if id in old(alerts)
                        then old(alerts)[id := old(alerts)[id].(ackCount := old(alerts)[id].ackCount + 1)]
                        else old(alerts)
    {
      if id in alerts {
        alerts := alerts[id := alerts[id].(ackCount := alerts[id].ackCount + 1)];
      }
    }

    /** Publishes every alert that has neither outlived its duration nor spent its hops. */
    method ReBroadcastActive(now: int)
      modifies this`published
      ensures exists ids :: Due(ids, alerts, now) && published == old(published) + RebroadcastsOf(ids, alerts)
    {
      var remaining := alerts.Keys;
      ghost var ids: seq<MsgId> := [];
      while remaining != {}
        invariant remaining <= alerts.Keys && Distinct(ids)
        invariant forall id :: id in ids <==> id in alerts && id !in remaining && Rebroadcasts(alerts[id], now)
        invariant published == old(published) + RebroadcastsOf(ids, alerts)
        decreases |remaining|
      {
        var id :| id in remaining;
        remaining := remaining - {id};
        var alert := alerts[id];
        if now > alert.expiresAt {
          continue;
        }
        var msg := Rebroadcast(alert);
        if msg.ttl <= 0 {
          continue;
        }
        published := published + [msg];
        assert RebroadcastsOf(ids + [id], alerts) == RebroadcastsOf(ids, alerts) + [msg];
        ids := ids + [id];
      }
      assert Due(ids, alerts, now);
    }

    /** Deletes every alert that has outlived its duration, and reports each once. */
    method CheckExpiry(now: int)
      modifies this`alerts, this`ended
      ensures alerts == Expired(old(alerts), now)
      ensures exists ids :: ended == old(ended) + ids && Distinct(ids)
                            && forall id :: id in ids <==> id in old(alerts) && Outlived(old(alerts)[id], now)
    {
      var ids: seq<MsgId> := [];
      var remaining := alerts.Keys;
      while remaining != {}
        invariant remaining <= alerts.Keys && ended == old(ended) && Distinct(ids)
        invariant forall id :: id in ids <==> id in old(alerts) && id !in remaining && Outlived(old(alerts)[id], now)
        invariant forall id :: id in alerts <==> id in old(alerts) && id !in ids
        invariant forall id :: id in alerts ==> alerts[id] == old(alerts)[id]
        decreases |remaining|
      {
        var id :| id in remaining;
        if now > alerts[id].expiresAt {
          ids := ids + [id];
          alerts := alerts - {id};
        }
        remaining := remaining - {id};
      }
      ended := ended + ids;
    }
  }
}
