/** One message's passage through the simulator.

    The simulator's forwarder only ever looks at the message in hand, the two nodes in contact and
    the predictability tables, so the life of one message is a state machine of its own, driven by
    the contact schedule. Simulator.dfy proves that the program's buffers follow it. */
module MessageRun {
  import opened Prelude
  import opened Routing

  /** Every node's predictability table, by node index. */
  type Tables = seq<Table>

  type Contact = (NodeId, NodeId)

  datatype Delivery = Delivery(latency: int, hops: nat)

  /** The shared state of a message together with its physical copies: `carriers` maps the nodes that
      hold a copy to the hops that copy has taken. */
  datatype Track = Track(
    src: NodeId, dst: NodeId, createdAt: int, ttl: int,
    copies: int, deliveredAt: int, carriers: map<NodeId, nat>, delivery: Option<Delivery>)

  function Born(src: NodeId, dst: NodeId, tick: int, ttl: int): Track {
    Track(src, dst, tick, ttl, 1, 0, map[src := 0], None)
  }

  function Predict(table: Table, dst: NodeId): real {
    if dst in table then table[dst].p else 0.0
  }

  function Holding(t: Track, x: NodeId): Option<nat> {
    if x in t.carriers then Some(t.carriers[x]) else None
  }

  /** One direction of a contact: x offers the copy it held when the contact began. */
  function Offer(f: Forwarder, t: Track, held: Option<nat>, x: NodeId, y: NodeId,
                 myP: real, peerP: real, tick: int): Track {
    if held.None? || t.deliveredAt != 0 then t
    else
      match Decide(f, t.dst, t.copies, y, myP, peerP, y in t.carriers)
      case Deliver =>
        t.(deliveredAt := tick, delivery := Some(Delivery(tick - t.createdAt, held.value)),
           carriers := t.carriers - {x})
      case Spray => t.(copies := t.copies + 1, carriers := t.carriers[y := held.value + 1])
      case Handoff => t.(carriers := t.carriers[y := held.value + 1] - {x})
      case Keep => t
      case Dup => t
  }

  /** A whole contact: both directions, each offering what was held before either. */
  function Meet(f: Forwarder, tables: Tables, t: Track, c: Contact, tick: int): Track
    requires c.0 < |tables| && c.1 < |tables|
  {
    var p0, p1 := Predict(tables[c.0], t.dst), Predict(tables[c.1], t.dst);
    var there := Offer(f, t, Holding(t, c.0), c.0, c.1, p0, p1, tick);
    Offer(f, there, Holding(t, c.1), c.1, c.0, p1, p0, tick)
  }

  /** The end-of-tick sweep keeps a delivered copy and drops an undelivered one whose time is up. */
  function Sweep(t: Track, tick: int): Track {
    if t.deliveredAt != 0 || tick - t.createdAt < t.ttl then t else t.(carriers := map[])
  }

  // ------------------------------------------------------------- schedules

  /** What a tick brings from outside: the draws for a possible injection, and the contacts. */
  datatype TickPlan = TickPlan(srcDraw: nat, dstDraw: nat, contacts: seq<Contact>)

  predicate ValidContacts(n: nat, contacts: seq<Contact>) {
    forall c :: c in contacts ==> c.0 < n && c.1 < n && c.0 != c.1
  }

  predicate ValidTick(n: nat, tp: TickPlan) {
    tp.srcDraw < n && tp.dstDraw + 1 < n && ValidContacts(n, tp.contacts)
  }

  predicate ValidPlan(n: nat, plan: seq<TickPlan>) {
    forall i :: 0 <= i < |plan| ==> ValidTick(n, plan[i])
  }

  /** An ordered pair of different nodes, from one draw below n and one below n - 1. */
  function PickPair(n: nat, srcDraw: nat, dstDraw: nat): (pair: (NodeId, NodeId))
    requires srcDraw < n && dstDraw + 1 < n
    ensures pair.0 < n && pair.1 < n && pair.0 != pair.1
  {
    (srcDraw, if dstDraw >= srcDraw then dstDraw + 1 else dstDraw)
  }

  /** Every ordered pair of different nodes comes from exactly one pair of draws. */
  lemma PickPairCoversPairs(n: nat, src: NodeId, dst: NodeId) returns (d: nat)
    requires src < n && dst < n && src != dst
    ensures d + 1 < n && PickPair(n, src, d) == (src, dst)
    ensures forall e: nat :: e + 1 < n && PickPair(n, src, e) == (src, dst) ==> d == e
  {
    d := if dst > src then dst - 1 else dst;
  }

  /** a meets b: a's entry for b takes the encounter and the transit through b's table. */
  ghost function MeetTables(tables: Tables, a: NodeId, b: NodeId, tick: int): Tables
    requires a < |tables| && b < |tables|
  {
    var s := if b in tables[a] then tables[a][b] else FRESH_STAT;
    var row: Table := tables[a];
    var updated: Table := row[b := Encountered(s, tick, tables[b])];
    tables[a := updated]
  }

  ghost function ContactTables(tables: Tables, c: Contact, tick: int): Tables
    requires c.0 < |tables| && c.1 < |tables|
  {
    MeetTables(MeetTables(tables, c.0, c.1, tick), c.1, c.0, tick)
  }

  ghost function MingleTables(tables: Tables, contacts: seq<Contact>, tick: int): (r: Tables)
    requires ValidContacts(|tables|, contacts)
    ensures |r| == |tables|
  {
    if contacts == [] then tables
    else
      var init, c := contacts[..|contacts| - 1], contacts[|contacts| - 1];
      ContactTables(MingleTables(tables, init, tick), c, tick)
  }

  function AgeTable(table: Table): Table {
    map id | id in table :: table[id].(p := Aged(table[id].p, AGE_UNITS))
  }

  predicate InContact(contacts: seq<Contact>, i: NodeId) {
    exists k :: 0 <= k < |contacts| && (contacts[k].0 == i || contacts[k].1 == i)
  }

  /** Only the tables of nodes that met nobody age. */
  function AgeIdle(tables: Tables, contacts: seq<Contact>): Tables {
    seq(|tables|, i requires 0 <= i < |tables| =>
      if InContact(contacts, i) then tables[i] else AgeTable(tables[i]))
  }

  /** The tables when tick `now` begins. They depend on the schedule alone. */
  ghost function TablesAt(n: nat, plan: seq<TickPlan>, now: nat): (r: Tables)
    requires ValidPlan(n, plan) && now <= |plan|
    ensures |r| == n
  {
    if now == 0 then seq(n, _ => map[])
    else
      AgeIdle(MingleTables(TablesAt(n, plan, now - 1), plan[now - 1].contacts, now - 1), plan[now - 1].contacts)
  }

  /** The message after a run of contacts within one tick. */
  ghost function Mingle(f: Forwarder, tables: Tables, t: Track, contacts: seq<Contact>, tick: int): Track
    requires ValidContacts(|tables|, contacts)
  {
    if contacts == [] then t
    else
      var init, c := contacts[..|contacts| - 1], contacts[|contacts| - 1];
      Meet(f, MingleTables(tables, contacts, tick), Mingle(f, tables, t, init, tick), c, tick)
  }

  /** The message after all of tick `tick`. */
  ghost function Tick(f: Forwarder, n: nat, plan: seq<TickPlan>, t: Track, tick: nat): Track
    requires ValidPlan(n, plan) && tick < |plan|
  {
    Sweep(Mingle(f, TablesAt(n, plan, tick), t, plan[tick].contacts, tick), tick)
  }

  /** The message when tick `now` begins (or, at its own tick, when it has just been injected). */
  ghost function TrackAt(f: Forwarder, n: nat, plan: seq<TickPlan>, born: Track, now: nat): Track
    requires ValidPlan(n, plan) && 0 <= born.createdAt <= now <= |plan|
    decreases now
  {
    if now == born.createdAt then born else Tick(f, n, plan, TrackAt(f, n, plan, born, now - 1), now - 1)
  }

  // ------------------------------------------- predictabilities in every run

  ghost predicate TablesSound(tables: Tables) {
    forall i :: 0 <= i < |tables| ==> BelowOne(tables[i])
  }

  lemma MeetTablesSound(tables: Tables, a: NodeId, b: NodeId, tick: int)
    requires a < |tables| && b < |tables| && TablesSound(tables)
    ensures TablesSound(MeetTables(tables, a, b, tick))
  {
    EncounteredBounds(if b in tables[a] then tables[a][b] else FRESH_STAT, tick, tables[b]);
  }

  lemma {:induction false} MingleTablesSound(tables: Tables, contacts: seq<Contact>, tick: int)
    requires ValidContacts(|tables|, contacts) && TablesSound(tables)
    ensures TablesSound(MingleTables(tables, contacts, tick))
  {
    if contacts != [] {
      var init, c := contacts[..|contacts| - 1], contacts[|contacts| - 1];
      MingleTablesSound(tables, init, tick);
      var before: Tables := MingleTables(tables, init, tick);
      MeetTablesSound(before, c.0, c.1, tick);
      MeetTablesSound(MeetTables(before, c.0, c.1, tick), c.1, c.0, tick);
    }
  }

  lemma AgeIdleSound(tables: Tables, contacts: seq<Contact>)
    requires TablesSound(tables)
    ensures TablesSound(AgeIdle(tables, contacts))
  {
    forall i: nat, id: NodeId | i < |tables| && id in tables[i]
      ensures 0.0 <= Aged(tables[i][id].p, AGE_UNITS) < 1.0
    {
      AgedBounds(tables[i][id].p, AGE_UNITS);
    }
  }

  /** In every run every predictability lies in [0, 1). */
  lemma {:induction false} PredictabilitiesBelowOne(n: nat, plan: seq<TickPlan>, now: nat)
    requires ValidPlan(n, plan) && now <= |plan|
    ensures TablesSound(TablesAt(n, plan, now))
  {
    hide MingleTables, AgeIdle;
    if now > 0 {
      PredictabilitiesBelowOne(n, plan, now - 1);
      var contacts := plan[now - 1].contacts;
      MingleTablesSound(TablesAt(n, plan, now - 1), contacts, now - 1);
      AgeIdleSound(MingleTables(TablesAt(n, plan, now - 1), contacts, now - 1), contacts);
    }
  }
}
