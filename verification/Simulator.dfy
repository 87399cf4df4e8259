/** The simulator itself: per-node buffers mirrored by presence maps, shared message states, and the
    tick loop. Every method is tied to the per-message machine of MessageRun. */
module Simulator {
  import opened Prelude
  import opened Routing
  import opened MessageRun
  import opened MessageTheorems
  import opened Scenario
  import opened IdOrder

  /** One physical copy. Messages are named by their sequence number. */
  datatype BufEntry = BufEntry(msg: nat, hops: nat)

  /** The state shared by all copies of one message. */
  datatype MessageState = MessageState(
    src: NodeId, dst: NodeId, createdAt: int, ttl: int, copiesMade: int, deliveredAt: int)

  datatype RunError = TooFewNodes | EmptyWindow | NoForwarder

  function Put(contents: map<nat, nat>, m: nat, hops: nat): map<nat, nat> {
    contents[m := hops]
  }

  function Lookup(contents: map<nat, nat>, m: nat): Option<nat> {
    if m in contents then Some(contents[m]) else None
  }

  /** The buffer holds exactly these messages, each once, with these hop counts. */
  ghost predicate Mirrors(buf: seq<BufEntry>, contents: map<nat, nat>) {
    && (forall i, j :: 0 <= i < j < |buf| ==> buf[i].msg != buf[j].msg)
    && (forall i :: 0 <= i < |buf| ==> buf[i].msg in contents && contents[buf[i].msg] == buf[i].hops)
    && (forall m :: m in contents ==> exists i :: 0 <= i < |buf| && buf[i].msg == m)
  }

  /** Time up, or delivered. */
  predicate Expired(st: MessageState, now: int) {
    st.deliveredAt != 0 || now - st.createdAt >= st.ttl
  }

  /** What the sweep keeps: delivered messages, and those whose time is not up. */
  predicate Keeps(states: seq<MessageState>, m: nat, tick: int)
    requires m < |states|
  {
    states[m].deliveredAt != 0 || tick - states[m].createdAt < states[m].ttl
  }

  ghost function KeptContents(contents: map<nat, nat>, states: seq<MessageState>, tick: int): map<nat, nat>
    requires forall m :: m in contents ==> m < |states|
  {
    map m | m in contents && Keeps(states, m, tick) :: contents[m]
  }

  /** The copies the sweep keeps, in their order. */
  ghost function KeptBuf(buf: seq<BufEntry>, states: seq<MessageState>, tick: int): seq<BufEntry>
    requires forall i :: 0 <= i < |buf| ==> buf[i].msg < |states|
  {
    if buf == [] then []
    else
      var init, e := KeptBuf(buf[..|buf| - 1], states, tick), buf[|buf| - 1];
      if Keeps(states, e.msg, tick) then init + [e] else init
  }

  lemma {:induction false} KeptBufMembers(buf: seq<BufEntry>, states: seq<MessageState>, tick: int)
    requires forall i :: 0 <= i < |buf| ==> buf[i].msg < |states|
    requires forall i, j :: 0 <= i < j < |buf| ==> buf[i].msg != buf[j].msg
    ensures
      var kept := KeptBuf(buf, states, tick);
      && (forall e :: e in kept <==> e in buf && Keeps(states, e.msg, tick))
      && (forall i, j :: 0 <= i < j < |kept| ==> kept[i].msg != kept[j].msg)
  {
    if buf != [] {
      KeptBufMembers(buf[..|buf| - 1], states, tick);
      assert forall e :: e in buf <==> e in buf[..|buf| - 1] || e == buf[|buf| - 1];
    }
  }

  lemma KeptBufMirrors(buf: seq<BufEntry>, contents: map<nat, nat>, states: seq<MessageState>, tick: int)
    requires Mirrors(buf, contents) && forall m :: m in contents ==> m < |states|
    ensures Mirrors(KeptBuf(buf, states, tick), KeptContents(contents, states, tick))
  {
    hide KeptBuf;
    KeptBufMembers(buf, states, tick);
    var kept := KeptBuf(buf, states, tick);
    forall i | 0 <= i < |kept|
      ensures kept[i].msg in contents && contents[kept[i].msg] == kept[i].hops && Keeps(states, kept[i].msg, tick)
    {
      assert kept[i] in kept;
    }
    forall m | m in KeptContents(contents, states, tick)
      ensures exists i :: 0 <= i < |kept| && kept[i].msg == m
    {
      var k :| 0 <= k < |buf| && buf[k].msg == m;
      assert buf[k] in kept;
    }
  }

  lemma DropMirrors(buf: seq<BufEntry>, contents: map<nat, nat>, i: nat)
    requires Mirrors(buf, contents) && i < |buf|
    ensures Mirrors(buf[..i] + buf[i + 1..], contents - {buf[i].msg})
  {
    var after := buf[..i] + buf[i + 1..];
    DropKeeps(buf, after, i);
    forall k | k in contents && k != buf[i].msg
      ensures exists j :: 0 <= j < |after| && after[j].msg == k
    {
      var j :| 0 <= j < |buf| && buf[j].msg == k;
      DropFinds(buf, after, i, j);
    }
  }

  lemma DropKeeps(buf: seq<BufEntry>, after: seq<BufEntry>, i: nat)
    requires i < |buf| && after == buf[..i] + buf[i + 1..]
    requires forall j, k :: 0 <= j < k < |buf| ==> buf[j].msg != buf[k].msg
    ensures forall j, k :: 0 <= j < k < |after| ==> after[j].msg != after[k].msg
    ensures forall j :: 0 <= j < |after| ==> after[j].msg != buf[i].msg && after[j] in buf
  {
    forall j | 0 <= j < |after|
      ensures after[j] == buf[if j < i then j else j + 1]
    {
    }
  }

  lemma DropFinds(buf: seq<BufEntry>, after: seq<BufEntry>, i: nat, j: nat)
    requires i < |buf| && j < |buf| && j != i && after == buf[..i] + buf[i + 1..]
    ensures exists k :: 0 <= k < |after| && after[k] == buf[j]
  {
    assert after[if j < i then j else j - 1] == buf[j];
  }

  class Node {
    const id: NodeId
    var stats: Table
    var buf: seq<BufEntry>
    var has: set<nat>
    ghost var contents: map<nat, nat>

    ghost predicate Valid()
      reads this
    {
      Mirrors(buf, contents) && has == contents.Keys
    }

    constructor (id: NodeId)
      ensures Valid() && this.id == id && stats == map[] && contents == map[]
    {
      this.id := id;
      stats, buf, has, contents := map[], [], {}, map[];
    }

    /** Appends a copy and records its presence. */
    method Give(e: BufEntry)
      requires Valid() && e.msg !in contents
      modifies this`buf, this`has, this`contents
      ensures Valid() && buf == old(buf) + [e] && contents == old(contents)[e.msg := e.hops]
    {
      ghost var was := buf;
      has := has + {e.msg};
      buf := buf + [e];
      contents := contents[e.msg := e.hops];
      assert buf[|was|] == e;
      assert forall i :: 0 <= i < |was| ==> buf[i] == was[i];
    }

    method HasCopy(m: nat) returns (b: bool)
      requires Valid()
      ensures b <==> m in contents
    {
      b := m in has;
    }

    /** Removes the first, and so the only, copy of a message. */
    method DropFrom(m: nat)
      requires Valid()
      modifies this`buf, this`has, this`contents
      ensures Valid() && contents == old(contents) - {m}
    {
      ghost var was := buf;
      for i := 0 to |buf|
        invariant buf == was && has == old(has) && contents == old(contents)
        invariant forall j :: 0 <= j < i ==> buf[j].msg != m
      {
        if buf[i].msg == m {
          DropMirrors(buf, contents, i);
          buf := buf[..i] + buf[i + 1..];
          has := has - {m};
          contents := contents - {m};
          return;
        }
      }
      assert m !in contents;
    }

    /** Rebuilds the buffer from the copies to keep, and the presence map from the result. */
    method SweepBuf(states: seq<MessageState>, tick: int)
      requires Valid() && forall m :: m in contents ==> m < |states|
      modifies this`buf, this`has, this`contents
      ensures Valid() && contents == KeptContents(old(contents), states, tick)
    {
      var kept: seq<BufEntry> := [];
      for i := 0 to |buf|
        invariant kept == KeptBuf(buf[..i], states, tick)
      {
        assert buf[..i + 1][..i] == buf[..i];
        var e := buf[i];
        var st := states[e.msg];
        if st.deliveredAt != 0 || !Expired(st, tick) {
          kept := kept + [e];
        }
      }
      assert buf[..|buf|] == buf;
      KeptBufMirrors(buf, contents, states, tick);
      buf := kept;
      has := set e | e in kept :: e.msg;
      contents := KeptContents(contents, states, tick);
      assert has == contents.Keys;
    }

    /** One aging unit for every entry of the table, in whatever order. */
    method AgeStats()
      modifies this`stats
      ensures stats == AgeTable(old(stats))
    {
      var remaining := stats.Keys;
      while remaining != {}
        invariant remaining <= stats.Keys == old(stats).Keys
        invariant forall k :: k in stats ==>
            stats[k] == if k in remaining then old(stats)[k] else AgeTable(old(stats))[k]
        decreases |remaining|
      {
        var k :| k in remaining;
        var cell := new StatCell(stats[k]);
        cell.AgePredictability(AGE_UNITS);
        stats := stats[k := cell.Value()];
        remaining := remaining - {k};
      }
    }
  }

  // ---------------------------------------------------- the per-message view

  /** Which nodes hold message m, and with how many hops. */
  ghost function Carriers(held: seq<map<nat, nat>>, m: nat): map<NodeId, nat> {
    map i: NodeId | i < |held| && m in held[i] :: held[i][m]
  }

  /** The buffers, message states and delivery records as one value. */
  datatype Snap = Snap(held: seq<map<nat, nat>>, states: seq<MessageState>, delivered: map<nat, Delivery>) {
    /** Message m as the per-message machine sees it. */
    ghost function View(m: nat): Track
      requires m < |states|
    {
      var st := states[m];
      Track(st.src, st.dst, st.createdAt, st.ttl, st.copiesMade, st.deliveredAt, Carriers(held, m),
            if m in delivered then Some(delivered[m]) else None)
    }

    function Drop(x: NodeId, m: nat): Snap
      requires x < |held|
    {
      this.(held := held[x := held[x] - {m}])
    }

    function Give(x: NodeId, m: nat, hops: nat): Snap
      requires x < |held|
    {
      this.(held := held[x := Put(held[x], m, hops)])
    }

    function SetState(m: nat, st: MessageState): Snap
      requires m < |states|
    {
      this.(states := states[m := st])
    }

    /** What offering one copy does to the whole. */
    function OfferCopy(f: Forwarder, e: BufEntry, x: NodeId, y: NodeId, myP: real, peerP: real, tick: int): Snap
      requires x < |held| && y < |held| && e.msg < |states|
    {
      var m, st := e.msg, states[e.msg];
      if st.deliveredAt != 0 then this
      else
        match Decide(f, st.dst, st.copiesMade, y, myP, peerP, m in held[y])
        case Deliver =>
          Drop(x, m).SetState(m, st.(deliveredAt := tick))
            .(delivered := delivered[m := Delivery(tick - st.createdAt, e.hops)])
        case Spray => Give(y, m, e.hops + 1).SetState(m, st.(copiesMade := st.copiesMade + 1))
        case Handoff => Give(y, m, e.hops + 1).Drop(x, m)
        case Keep => this
        case Dup => this
    }
  }

  /** Dropping m at x removes x from m's carriers and touches no other message. */
  lemma CarriersDrop(held: seq<map<nat, nat>>, x: NodeId, m: nat)
    requires x < |held|
    ensures
      var after := held[x := held[x] - {m}];
      && Carriers(after, m) == Carriers(held, m) - {x}
      && forall k: nat :: k != m ==> Carriers(after, k) == Carriers(held, k)
  {
  }

  /** Giving m to x with h hops adds x to m's carriers and touches no other message. */
  lemma CarriersGive(held: seq<map<nat, nat>>, x: NodeId, m: nat, h: nat)
    requires x < |held|
    ensures
      var after := held[x := Put(held[x], m, h)];
      && Carriers(after, m) == Carriers(held, m)[x := h]
      && forall k: nat :: k != m ==> Carriers(after, k) == Carriers(held, k)
  {
  }

  lemma DropView(s: Snap, x: NodeId, m: nat)
    requires x < |s.held| && m < |s.states|
    ensures s.Drop(x, m).View(m) == s.View(m).(carriers := s.View(m).carriers - {x})
    ensures forall k: nat :: k < |s.states| && k != m ==> s.Drop(x, m).View(k) == s.View(k)
  {
    hide Carriers;
    CarriersDrop(s.held, x, m);
  }

  lemma GiveView(s: Snap, x: NodeId, m: nat, h: nat)
    requires x < |s.held| && m < |s.states|
    ensures s.Give(x, m, h).View(m) == s.View(m).(carriers := s.View(m).carriers[x := h])
    ensures forall k: nat :: k < |s.states| && k != m ==> s.Give(x, m, h).View(k) == s.View(k)
  {
    hide Carriers;
    CarriersGive(s.held, x, m, h);
  }

  lemma HeldInView(s: Snap, x: NodeId, m: nat)
    requires x < |s.held| && m < |s.states|
    ensures m in s.held[x] <==> x in s.View(m).carriers
  {
  }

  /** Offering a copy is one step of that message's machine and leaves every other message alone. */
  lemma OfferCopyView(s: Snap, f: Forwarder, e: BufEntry, x: NodeId, y: NodeId, myP: real, peerP: real, tick: int)
    requires x < |s.held| && y < |s.held| && e.msg < |s.states|
    ensures
      var after := s.OfferCopy(f, e, x, y, myP, peerP, tick);
      && |after.states| == |s.states| && |after.held| == |s.held|
      && after.View(e.msg) == Offer(f, s.View(e.msg), Some(e.hops), x, y, myP, peerP, tick)
      && forall k: nat :: k < |s.states| && k != e.msg ==> after.View(k) == s.View(k)
  {
    hide Carriers;
    if s.states[e.msg].deliveredAt == 0 {
      HeldInView(s, y, e.msg);
      DropView(s, x, e.msg);
      GiveView(s, y, e.msg, e.hops + 1);
      DropView(s.Give(y, e.msg, e.hops + 1), x, e.msg);
    }
  }

  /** In the course of one direction of a contact: the messages done have been offered, the others not. */
  ghost predicate Halfway(s: Snap, now: Snap, f: Forwarder, held: map<nat, nat>, done: set<nat>, x: NodeId, y: NodeId,
                          mine: Table, theirs: Table, tick: int) {
    && |now.states| == |s.states| && |now.held| == |s.held|
    && forall m: nat :: m < |s.states| ==>
         now.View(m) == if m in done then Offered(s, f, held, m, x, y, mine, theirs, tick) else s.View(m)
  }

  ghost function Offered(s: Snap, f: Forwarder, held: map<nat, nat>, m: nat, x: NodeId, y: NodeId,
                         mine: Table, theirs: Table, tick: int): Track
    requires m < |s.states|
  {
    Offer(f, s.View(m), Lookup(held, m), x, y, Predict(mine, s.states[m].dst), Predict(theirs, s.states[m].dst), tick)
  }

  lemma HalfwayStarts(s: Snap, f: Forwarder, held: map<nat, nat>, x: NodeId, y: NodeId,
                      mine: Table, theirs: Table, tick: int)
    ensures Halfway(s, s, f, held, {}, x, y, mine, theirs, tick)
  {
  }

  lemma HalfwayStep(s: Snap, now: Snap, f: Forwarder, held: map<nat, nat>, e: BufEntry, done: set<nat>,
                    x: NodeId, y: NodeId, mine: Table, theirs: Table, tick: int)
    requires Halfway(s, now, f, held, done, x, y, mine, theirs, tick) && x < |s.held| && y < |s.held|
    requires e.msg < |s.states| && e.msg in held && held[e.msg] == e.hops && e.msg !in done
    ensures |now.states| == |s.states| && |now.held| == |s.held|
    ensures
      var dst := now.states[e.msg].dst;
      Halfway(s, now.OfferCopy(f, e, x, y, Predict(mine, dst), Predict(theirs, dst), tick), f, held, done + {e.msg},
              x, y, mine, theirs, tick)
  {
    hide Offer, Carriers, Snap.OfferCopy;
    assert now.states[e.msg].dst == now.View(e.msg).dst == s.states[e.msg].dst;
    OfferCopyView(now, f, e, x, y, Predict(mine, s.states[e.msg].dst), Predict(theirs, s.states[e.msg].dst), tick);
  }

  lemma HalfwayEnds(s: Snap, now: Snap, f: Forwarder, held: map<nat, nat>, x: NodeId, y: NodeId,
                    mine: Table, theirs: Table, tick: int)
    requires Halfway(s, now, f, held, held.Keys, x, y, mine, theirs, tick)
    ensures |now.states| == |s.states|
    ensures forall m: nat :: m < |s.states| ==> now.View(m) == Offered(s, f, held, m, x, y, mine, theirs, tick)
  {
    hide Carriers;
  }

  lemma SnapshotFresh(snapshot: seq<BufEntry>, held: map<nat, nat>, k: nat)
    requires Mirrors(snapshot, held) && k < |snapshot|
    ensures snapshot[k].msg in held && held[snapshot[k].msg] == snapshot[k].hops
    ensures forall i :: 0 <= i < k ==> snapshot[i].msg != snapshot[k].msg
  {
  }

  lemma SnapshotComplete(snapshot: seq<BufEntry>, held: map<nat, nat>)
    requires Mirrors(snapshot, held)
    ensures forall m :: m in held ==> exists i :: 0 <= i < |snapshot| && snapshot[i].msg == m
  {
  }

  /** The record of a peer after meeting it. */
  method RecordMeeting(st: EncounterStat, tick: int, peerStats: Table) returns (r: EncounterStat)
    requires 0.0 <= st.p <= 1.0 && InUnit(peerStats)
    ensures r == Encountered(st, tick, peerStats)
  {
    var cell := new StatCell(st);
    cell.RecordEncounter(tick, peerStats);
    return cell.Value();
  }

  class World {
    const nodes: seq<Node>
    var states: seq<MessageState>
    var delivered: map<nat, Delivery>

    ghost predicate Valid()
      reads this, nodes
    {
      && (forall i, j :: 0 <= i < j < |nodes| ==> nodes[i] != nodes[j])
      && (forall i :: 0 <= i < |nodes| ==> nodes[i].id == i && nodes[i].Valid())
      && (forall i :: 0 <= i < |nodes| ==> forall m :: m in nodes[i].contents ==> m < |states|)
      && (forall m :: m in delivered ==> m < |states|)
      && TablesSound(Tables())
    }

    ghost function Held(): seq<map<nat, nat>>
      reads nodes
    {
      seq(|nodes|, i requires 0 <= i < |nodes| reads nodes => nodes[i].contents)
    }

    ghost function Tables(): (t: Tables)
      reads nodes
      ensures |t| == |nodes|
    {
      seq(|nodes|, i requires 0 <= i < |nodes| reads nodes => nodes[i].stats)
    }

    ghost function Snapshot(): (s: Snap)
      reads this, nodes
      ensures |s.held| == |nodes|
    {
      Snap(Held(), states, delivered)
    }

    /** Message m as the per-message machine sees it. */
    ghost function View(m: nat): Track
      reads this, nodes
      requires m < |states|
    {
      Snapshot().View(m)
    }

    ghost function Views(): (v: seq<Track>)
      reads this, nodes
      ensures |v| == |states|
    {
      seq(|states|, m requires 0 <= m < |states| reads this, nodes => View(m))
    }

    constructor (n: nat)
      ensures Valid() && fresh(nodes) && |nodes| == n && states == []
      ensures forall i :: 0 <= i < n ==> Tables()[i] == map[]
    {
      var made: seq<Node> := [];
      for i := 0 to n
        invariant |made| == i && fresh(made)
        invariant forall j :: 0 <= j < i ==> made[j].id == j && made[j].Valid()
        invariant forall j :: 0 <= j < i ==> made[j].stats == map[] && made[j].contents == map[]
        invariant forall j, k :: 0 <= j < k < i ==> made[j] != made[k]
      {
        var node := new Node(i);
        made := made + [node];
      }
      nodes, states, delivered := made, [], map[];
    }

    method DropCopy(x: Node, m: nat)
      requires Valid() && x in nodes && x.id < |nodes|
      modifies x`buf, x`has, x`contents
      ensures Valid() && Snapshot() == old(Snapshot().Drop(x.id, m))
    {
      assert nodes[x.id] == x;
      x.DropFrom(m);
      assert Tables() == old(Tables());
      assert Held() == old(Held())[x.id := old(x.contents) - {m}];
    }

    method GiveCopy(x: Node, e: BufEntry)
      requires Valid() && x in nodes && x.id < |nodes| && e.msg < |states| && e.msg !in x.contents
      modifies x`buf, x`has, x`contents
      ensures Valid() && Snapshot() == old(Snapshot().Give(x.id, e.msg, e.hops))
    {
      assert nodes[x.id] == x;
      x.Give(e);
      assert Tables() == old(Tables());
      assert Held() == old(Held())[x.id := Put(old(x.contents), e.msg, e.hops)];
    }

    method SetState(m: nat, st: MessageState)
      requires Valid() && m < |states|
      modifies this`states
      ensures Valid() && Snapshot() == old(Snapshot().SetState(m, st))
    {
      states := states[m := st];
    }

    method RecordDelivery(m: nat, d: Delivery)
      requires Valid() && m < |states|
      modifies this`delivered
      ensures Valid() && Snapshot() == old(Snapshot()).(delivered := old(delivered)[m := d])
    {
      delivered := delivered[m := d];
    }

    /** The destination takes the message: the delivery is recorded and the sender's copy goes. */
    method DeliverCopy(a: Node, e: BufEntry, tick: int)
      requires Valid() && a in nodes && a.id < |nodes| && e.msg < |states|
      modifies this`states, this`delivered, a`buf, a`has, a`contents
      ensures Valid() && Tables() == old(Tables())
      ensures
        var s, st := old(Snapshot()), old(states[e.msg]);
        Snapshot() == s.Drop(a.id, e.msg).SetState(e.msg, st.(deliveredAt := tick))
                       .(delivered := s.delivered[e.msg := Delivery(tick - st.createdAt, e.hops)])
    {
      hide Mirrors, TablesSound;
      var st := states[e.msg];
      SetState(e.msg, st.(deliveredAt := tick));
      RecordDelivery(e.msg, Delivery(tick - st.createdAt, e.hops));
      DropCopy(a, e.msg);
    }

    /** A new copy for the peer, counted in the shared state. */
    method SprayCopy(b: Node, e: BufEntry)
      requires Valid() && b in nodes && b.id < |nodes| && e.msg < |states| && e.msg !in b.contents
      modifies this`states, b`buf, b`has, b`contents
      ensures Valid() && Tables() == old(Tables())
      ensures
        var s, st := old(Snapshot()), old(states[e.msg]);
        Snapshot() == s.Give(b.id, e.msg, e.hops + 1).SetState(e.msg, st.(copiesMade := st.copiesMade + 1))
    {
      hide Mirrors, TablesSound;
      var st := states[e.msg];
      SetState(e.msg, st.(copiesMade := st.copiesMade + 1));
      GiveCopy(b, BufEntry(e.msg, e.hops + 1));
    }

    /** The copy moves to the peer. */
    method HandOverCopy(a: Node, b: Node, e: BufEntry)
      requires Valid() && a in nodes && b in nodes && a != b && e.msg < |states| && e.msg !in b.contents
      requires a.id < |nodes| && b.id < |nodes|
      modifies a`buf, a`has, a`contents, b`buf, b`has, b`contents
      ensures Valid() && Tables() == old(Tables())
      ensures Snapshot() == old(Snapshot()).Give(b.id, e.msg, e.hops + 1).Drop(a.id, e.msg)
    {
      hide Mirrors, TablesSound;
      GiveCopy(b, BufEntry(e.msg, e.hops + 1));
      DropCopy(a, e.msg);
    }

    /** One offered copy: the forwarder's decision, applied to the live buffers. */
    method OfferCopy(a: Node, b: Node, e: BufEntry, tick: int, f: Forwarder)
      requires Valid() && a in nodes && b in nodes && a != b && e.msg < |states|
      requires a.id < |nodes| && b.id < |nodes|
      modifies this`states, this`delivered, a`buf, a`has, a`contents, b`buf, b`has, b`contents
      ensures Valid()
      ensures
        var dst := old(states[e.msg].dst);
        Snapshot() == old(Snapshot()).OfferCopy(f, e, a.id, b.id, Predict(a.stats, dst), Predict(b.stats, dst), tick)
      ensures Tables() == old(Tables())
    {
      hide Mirrors, TablesSound;
      var st := states[e.msg];
      if st.deliveredAt != 0 {
        return;
      }
      var peerHolds := b.HasCopy(e.msg);
      assert nodes[b.id] == b && Held()[b.id] == b.contents;
      hide Snap.Drop, Snap.Give, Snap.SetState, Carriers;
      match Decide(f, st.dst, st.copiesMade, b.id, Predict(a.stats, st.dst), Predict(b.stats, st.dst), peerHolds) {
        case Deliver => DeliverCopy(a, e, tick);
        case Spray => SprayCopy(b, e);
        case Handoff => HandOverCopy(a, b, e);
        case Keep =>
        case Dup =>
      }
    }

    /** One direction of a contact, over the copies a held when the contact began. */
    method Exchange(a: Node, b: Node, snapshot: seq<BufEntry>, ghost held: map<nat, nat>, tick: int, f: Forwarder)
      requires Valid() && a in nodes && b in nodes && a != b && a.id < |nodes| && b.id < |nodes|
      requires Mirrors(snapshot, held) && forall m :: m in held ==> m < |states|
      modifies this`states, this`delivered, a`buf, a`has, a`contents, b`buf, b`has, b`contents
      ensures Valid() && |states| == old(|states|) && Tables() == old(Tables())
      ensures forall m: nat :: m < |states| ==>
                View(m) == Offer(f, old(View(m)), Lookup(held, m), a.id, b.id,
                                 Predict(a.stats, old(states[m].dst)), Predict(b.stats, old(states[m].dst)), tick)
    {
      hide Carriers, TablesSound, Mirrors, Halfway, Offer, Snap.OfferCopy;
      ghost var was, done := Snapshot(), {};
      HalfwayStarts(was, f, held, a.id, b.id, a.stats, b.stats, tick);
      for k := 0 to |snapshot|
        invariant Valid() && Tables() == old(Tables())
        invariant done <= held.Keys && forall m :: m in done <==> exists i :: 0 <= i < k && snapshot[i].msg == m
        invariant Halfway(was, Snapshot(), f, held, done, a.id, b.id, a.stats, b.stats, tick)
      {
        var e := snapshot[k];
        assert e.msg in held && held[e.msg] == e.hops && e.msg !in done by { SnapshotFresh(snapshot, held, k); }
        HalfwayStep(was, Snapshot(), f, held, e, done, a.id, b.id, a.stats, b.stats, tick);
        OfferCopy(a, b, e, tick, f);
        done := done + {e.msg};
      }
      assert done == held.Keys by { SnapshotComplete(snapshot, held); }
      HalfwayEnds(was, Snapshot(), f, held, a.id, b.id, a.stats, b.stats, tick);
    }

    /** a meets b: a's entry for b is fetched, updated and stored back. */
    method UpdateEncounter(a: Node, b: Node, tick: int)
      requires Valid() && a in nodes && b in nodes && a != b && a.id < |nodes| && b.id < |nodes|
      modifies a`stats
      ensures Valid() && Snapshot() == old(Snapshot())
      ensures Tables() == MeetTables(old(Tables()), a.id, b.id, tick)
    {
      hide Mirrors, Encountered;
      ghost var before := Tables();
      assert nodes[a.id] == a && nodes[b.id] == b;
      assert BelowOne(before[a.id]) && BelowOne(before[b.id]);
      var st := if b.id in a.stats then a.stats[b.id] else FRESH_STAT;
      var met := RecordMeeting(st, tick, b.stats);
      a.stats := a.stats[b.id := met];
      MeetTablesSound(before, a.id, b.id, tick);
      assert Tables() == MeetTables(before, a.id, b.id, tick);
      assert Held() == old(Held());
    }

    /** A contact: both encounter updates, both snapshots, then both directions of exchange. */
    method MeetNodes(i: nat, j: nat, tick: int, f: Forwarder)
      requires Valid() && i < |nodes| && j < |nodes| && i != j
      modifies this`states, this`delivered, nodes[i], nodes[j]
      ensures Valid() && |states| == old(|states|)
      ensures Tables() == ContactTables(old(Tables()), (i, j), tick)
      ensures forall m: nat :: m < |states| ==> View(m) == Meet(f, Tables(), old(View(m)), (i, j), tick)
    {
      hide Mirrors, TablesSound, Carriers, MeetTables, Offer;
      var a, b := nodes[i], nodes[j];
      UpdateEncounter(a, b, tick);
      UpdateEncounter(b, a, tick);
      assert forall m: nat :: m < |states| ==> View(m) == old(View(m));
      forall m: nat, p: real, q: real | m < |states| {
        OfferKeepsDst(f, View(m), Lookup(a.contents, m), i, j, p, q, tick);
      }
      var aSnap, bSnap := a.buf, b.buf;
      ghost var aHeld, bHeld := a.contents, b.contents;
      SnapshotHolding(Snapshot(), i);
      SnapshotHolding(Snapshot(), j);
      Exchange(a, b, aSnap, aHeld, tick, f);
      Exchange(b, a, bSnap, bHeld, tick, f);
    }

    /** All contacts of a tick, in order. */
    method ProcessContacts(contacts: seq<Contact>, tick: int, f: Forwarder)
      requires Valid() && ValidContacts(|nodes|, contacts)
      modifies this`states, this`delivered, nodes
      ensures Valid() && |states| == old(|states|)
      ensures Tables() == MingleTables(old(Tables()), contacts, tick)
      ensures forall m: nat :: m < |states| ==> View(m) == Mingle(f, old(Tables()), old(View(m)), contacts, tick)
    {
      hide Mirrors, TablesSound, Carriers, ContactTables, Meet;
      for k := 0 to |contacts|
        invariant Valid() && |states| == old(|states|)
        invariant Tables() == MingleTables(old(Tables()), contacts[..k], tick)
        invariant forall m: nat :: m < |states| ==>
            View(m) == Mingle(f, old(Tables()), old(View(m)), contacts[..k], tick)
      {
        assert contacts[..k + 1][..k] == contacts[..k];
        assert contacts[k] in contacts;
        MeetNodes(contacts[k].0, contacts[k].1, tick, f);
      }
      assert contacts[..|contacts|] == contacts;
    }

    /** Marks the nodes that met somebody. */
    method MarkContacts(contacts: seq<Contact>) returns (inContact: array<bool>)
      requires ValidContacts(|nodes|, contacts)
      ensures fresh(inContact) && inContact.Length == |nodes|
      ensures forall i :: 0 <= i < |nodes| ==> (inContact[i] <==> InContact(contacts, i))
    {
      inContact := new bool[|nodes|](_ => false);
      for k := 0 to |contacts|
        modifies inContact
        invariant forall i :: 0 <= i < |nodes| ==> (inContact[i] <==> InContact(contacts[..k], i))
      {
        var c := contacts[k];
        assert c in contacts;
        inContact[c.0] := true;
        inContact[c.1] := true;
        forall i | 0 <= i < |nodes|
          ensures InContact(contacts[..k + 1], i) <==> InContact(contacts[..k], i) || c.0 == i || c.1 == i
        {
          assert contacts[..k + 1][k] == c;
          assert forall l :: 0 <= l < k ==> contacts[..k + 1][l] == contacts[..k][l];
        }
      }
      assert contacts[..|contacts|] == contacts;
    }

    /** Ages the tables of the nodes that met nobody. */
    method AgeIdleNodes(contacts: seq<Contact>)
      requires Valid() && ValidContacts(|nodes|, contacts)
      modifies nodes
      ensures Valid() && Snapshot() == old(Snapshot())
      ensures Tables() == AgeIdle(old(Tables()), contacts)
    {
      hide Mirrors, Carriers, AgeTable;
      var inContact := MarkContacts(contacts);
      for i := 0 to |nodes|
        modifies nodes
        invariant forall j :: 0 <= j < |nodes| ==> nodes[j].contents == old(nodes[j].contents)
        invariant forall j :: 0 <= j < |nodes| ==> nodes[j].Valid()
        invariant forall j :: 0 <= j < |nodes| ==>
            nodes[j].stats == if j < i then AgeIdle(old(Tables()), contacts)[j] else old(Tables())[j]
      {
        if !inContact[i] {
          nodes[i].AgeStats();
        }
      }
      AgeIdleSound(old(Tables()), contacts);
      assert Tables() == AgeIdle(old(Tables()), contacts);
      assert Held() == old(Held());
    }

    /** Sweeps every node's buffer. */
    method SweepAllNodes(tick: int)
      requires Valid()
      modifies nodes
      ensures Valid() && |states| == old(|states|) && Tables() == old(Tables())
      ensures forall m: nat :: m < |states| ==> View(m) == Sweep(old(View(m)), tick)
    {
      hide Mirrors, TablesSound;
      for i := 0 to |nodes|
        invariant Tables() == old(Tables())
        invariant forall j :: 0 <= j < |nodes| ==>
            && nodes[j].Valid()
            && nodes[j].contents == if j < i then KeptContents(old(nodes[j].contents), states, tick)
                                    else old(nodes[j].contents)
      {
        nodes[i].SweepBuf(states, tick);
        assert Tables() == old(Tables());
      }
      SweptView(old(Snapshot()), Snapshot(), tick);
    }

    /** Everything in a tick after the injection. */
    method StepTick(f: Forwarder, plan: seq<TickPlan>, tick: nat)
      requires Valid() && tick < |plan| && ValidPlan(|nodes|, plan)
      requires Tables() == TablesAt(|nodes|, plan, tick)
      modifies this`states, this`delivered, nodes
      ensures Valid() && Tables() == TablesAt(|nodes|, plan, tick + 1)
      ensures TickDone(f, |nodes|, plan, old(Views()), Views(), tick)
    {
      hide Mirrors, Carriers, TablesSound, Mingle, MingleTables, Sweep, AgeIdle;
      ProcessContacts(plan[tick].contacts, tick, f);
      AgeIdleNodes(plan[tick].contacts);
      SweepAllNodes(tick);
    }

    /** Injects one message at its source. */
    method Inject(src: NodeId, dst: NodeId, tick: int, ttl: int)
      requires Valid() && src < |nodes|
      modifies this`states, nodes[src]
      ensures Valid() && Tables() == old(Tables()) && |states| == old(|states|) + 1
      ensures Views() == old(Views()) + [Born(src, dst, tick, ttl)]
    {
      hide Mirrors, TablesSound, Carriers;
      var m := |states|;
      states := states + [MessageState(src, dst, tick, ttl, 1, 0)];
      assert Tables() == old(Tables());
      GiveCopy(nodes[src], BufEntry(m, 0));
      InjectedView(old(Snapshot()), Snapshot(), src, dst, tick, ttl);
    }
  }

  /** The views after an injection into views `before`, and a whole tick. */
  ghost predicate TickDone(f: Forwarder, n: nat, plan: seq<TickPlan>, mid: seq<Track>, after: seq<Track>, tick: nat)
    requires ValidPlan(n, plan) && tick < |plan|
  {
    && |after| == |mid|
    && forall m :: 0 <= m < |mid| ==> after[m] == Tick(f, n, plan, mid[m], tick)
  }

  lemma OfferKeepsDst(f: Forwarder, t: Track, held: Option<nat>, x: NodeId, y: NodeId, myP: real, peerP: real, tick: int)
    ensures Offer(f, t, held, x, y, myP, peerP, tick).dst == t.dst
  {
  }

  lemma SnapshotHolding(s: Snap, x: NodeId)
    requires x < |s.held|
    ensures forall m: nat :: m < |s.states| ==> Holding(s.View(m), x) == Lookup(s.held[x], m)
  {
  }

  lemma SweptView(s: Snap, after: Snap, tick: int)
    requires |after.held| == |s.held| && after.states == s.states && after.delivered == s.delivered
    requires forall i :: 0 <= i < |s.held| ==> forall m :: m in s.held[i] ==> m < |s.states|
    requires forall i :: 0 <= i < |s.held| ==> after.held[i] == KeptContents(s.held[i], s.states, tick)
    ensures forall m: nat :: m < |s.states| ==> after.View(m) == Sweep(s.View(m), tick)
  {
    forall m: nat | m < |s.states|
      ensures after.View(m) == Sweep(s.View(m), tick)
    {
      if Keeps(s.states, m, tick) {
        assert Carriers(after.held, m) == Carriers(s.held, m);
      } else {
        assert Carriers(after.held, m) == map[];
      }
    }
  }

  lemma InjectedView(s: Snap, after: Snap, src: NodeId, dst: NodeId, tick: int, ttl: int)
    requires src < |s.held| && |after.states| == |s.states| + 1 && after.states[..|s.states|] == s.states
    requires after.held == s.Give(src, |s.states|, 0).held && after.delivered == s.delivered
    requires forall i :: 0 <= i < |s.held| ==> forall m :: m in s.held[i] ==> m < |s.states|
    requires forall m :: m in s.delivered ==> m < |s.states|
    requires after.states[|s.states|] == MessageState(src, dst, tick, ttl, 1, 0)
    ensures after.View(|s.states|) == Born(src, dst, tick, ttl)
    ensures forall m: nat :: m < |s.states| ==> after.View(m) == s.View(m)
  {
    var m := |s.states|;
    CarriersGive(s.held, src, m, 0);
    assert Carriers(s.held, m) == map[];
    forall k: nat | k < m
      ensures after.View(k) == s.View(k)
    {
      assert after.states[..m][k] == s.states[k];
    }
  }

  /** The accounting loop over the message states, in the order of their names. */
  method Accounting(w: World) returns (out: Outcome)
    requires w.Valid()
    ensures out == Account(InIdOrder(w.Views()))
  {
    hide Mirrors, Carriers, TablesSound, Sorted, Account, InIdOrder, SortedIds;
    var ids := SortedIds(|w.states|);
    ghost var visited := InIdOrder(w.Views());
    var latency, hops, copies, deliveredCount := [], [], 0, 0;
    AccountNothing(visited);
    for i := 0 to |ids|
      invariant Outcome(deliveredCount, i, latency, hops, copies) == Account(visited[..i])
    {
      AccountNext(visited, i);
      PlaceOf(w, i);
      var m := ids[i];
      var st := w.states[m];
      copies := copies + st.copiesMade;
      if st.deliveredAt > 0 {
        deliveredCount := deliveredCount + 1;
        var d := if m in w.delivered then w.delivered[m] else Delivery(0, 0);
        latency := latency + [d.latency];
        hops := hops + [d.hops];
      }
    }
    assert visited[..|ids|] == visited;
    out := Outcome(deliveredCount, |w.states|, latency, hops, copies);
  }

  lemma AccountNothing(tracks: seq<Track>)
    ensures Account(tracks[..0]) == Outcome(0, 0, [], [], 0)
  {
  }

  lemma AccountNext(tracks: seq<Track>, i: nat)
    requires i < |tracks|
    ensures
      var o, t := Account(tracks[..i]), tracks[i];
      var d := if t.delivery.Some? then t.delivery.value else Delivery(0, 0);
      Account(tracks[..i + 1]) ==
        if t.deliveredAt > 0 then
          Outcome(o.delivered + 1, o.total + 1, o.latency + [d.latency], o.hops + [d.hops], o.copies + t.copies)
        else o.(total := o.total + 1, copies := o.copies + t.copies)
  {
    assert tracks[..i + 1][..i] == tracks[..i];
  }

  lemma PlaceOf(w: World, i: nat)
    requires w.Valid() && i < |w.states|
    ensures InIdOrder(w.Views())[i] == w.View(SortedIds(|w.states|)[i])
  {
    hide Mirrors, Carriers, TablesSound, Sorted;
  }

  /** A whole run on a given mobility schedule, one plan entry per tick. */
  method Run(cfg: Config, plan: seq<TickPlan>) returns (r: Result<Outcome, RunError>)
    requires cfg.scenario.nodes >= 2 ==> ValidPlan(cfg.scenario.nodes, plan)
    ensures r.Ok? <==>
      cfg.scenario.nodes >= 2 && cfg.scenario.injectionFrom < cfg.scenario.injectionTo && cfg.forwarder.Some?
    ensures r.Ok? ==> r.value == OutcomeOf(cfg.forwarder.value, cfg.scenario, plan)
  {
    var sc := cfg.scenario;
    if sc.nodes < 2 {
      return Err(TooFewNodes);
    }
    if sc.injectionTo <= sc.injectionFrom {
      return Err(EmptyWindow);
    }
    if cfg.forwarder.None? {
      return Err(NoForwarder);
    }
    var out := Simulate(cfg.forwarder.value, sc, plan);
    return Ok(out);
  }

  /** The simulator's state when tick `now` begins is the one the per-message machines give. */
  ghost predicate InStep(w: World, f: Forwarder, sc: Scenario, plan: seq<TickPlan>, now: nat)
    requires Runnable(sc, plan) && now <= |plan|
    reads w, w.nodes
  {
    && w.Valid() && |w.nodes| == sc.nodes
    && w.Tables() == TablesAt(sc.nodes, plan, now)
    && w.Views() == TracksAt(f, sc, plan, now)
  }

  /** One tick: a possible injection, the contacts, the aging and the sweep. */
  method RunTick(w: World, f: Forwarder, sc: Scenario, plan: seq<TickPlan>, tick: nat, injected: nat)
    returns (total: nat)
    requires Runnable(sc, plan) && tick < |plan| && InStep(w, f, sc, plan, tick) && injected == |w.states|
    modifies w`states, w`delivered, w.nodes
    ensures InStep(w, f, sc, plan, tick + 1) && total == |w.states|
  {
    hide Mirrors, Carriers, TablesSound, Tick, TracksAt, TablesAt, PickPair, Stride;
    var stride := Stride(sc);
    total := injected;
    TracksNext(f, sc, plan, tick);
    if injected < sc.messages && tick >= sc.injectionFrom && (tick - sc.injectionFrom) % stride == 0 {
      var (src, dst) := PickPair(sc.nodes, plan[tick].srcDraw, plan[tick].dstDraw);
      w.Inject(src, dst, tick, sc.ttl);
      total := total + 1;
    }
    w.StepTick(f, plan, tick);
    assert w.Views() == TracksAt(f, sc, plan, tick + 1);
  }

  /** The tick loop and the final accounting. */
  method Simulate(f: Forwarder, sc: Scenario, plan: seq<TickPlan>) returns (out: Outcome)
    requires Runnable(sc, plan)
    ensures out == OutcomeOf(f, sc, plan)
  {
    hide Mirrors, Carriers, TablesSound, Tick, Account, TracksAt, OutcomeOf;
    var w := new World(sc.nodes);
    var injected := 0;
    StartOfRun(f, sc, plan, w.Tables());
    for tick := 0 to |plan|
      modifies w, w.nodes
      invariant InStep(w, f, sc, plan, tick) && injected == |w.states|
    {
      injected := RunTick(w, f, sc, plan, tick, injected);
    }
    out := Accounting(w);
    OutcomeIsAccount(f, sc, plan);
  }

  lemma StartOfRun(f: Forwarder, sc: Scenario, plan: seq<TickPlan>, tables: Tables)
    requires Runnable(sc, plan) && |tables| == sc.nodes && forall i :: 0 <= i < sc.nodes ==> tables[i] == map[]
    ensures tables == TablesAt(sc.nodes, plan, 0) && TracksAt(f, sc, plan, 0) == []
  {
  }

  lemma OutcomeIsAccount(f: Forwarder, sc: Scenario, plan: seq<TickPlan>)
    requires Runnable(sc, plan)
    ensures OutcomeOf(f, sc, plan) == Account(InIdOrder(TracksAt(f, sc, plan, |plan|)))
  {
  }
}
