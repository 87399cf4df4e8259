/** Where the copies of a message go: what a contact does with them, told from the predictability tables,
    and whom flooding reaches, told from the contacts alone. */
module CopyFlow {
  import opened Prelude
  import opened Routing
  import opened MessageRun
  import opened MessageTheorems
  import opened TableLaws

  // ------------------------------------------------------------- one contact

  /** y has met the destination, and is likelier than x to meet it again. */
  predicate Uphill(tables: Tables, x: NodeId, y: NodeId, dst: NodeId) {
    && x < |tables| && y < |tables| && dst in tables[y]
    && tables[y][dst].p > if dst in tables[x] then tables[x][dst].p else 0.0
  }

  /** A contact of x, which holds an undelivered copy, with y: the destination takes the message, recorded
      with x's hops; a node that holds a copy changes nothing; a fresh one gets a copy one hop on, counted
      while the budget lasts, and afterwards handed over to it exactly when that goes uphill. */
  lemma MeetMoves(f: Forwarder, tables: Tables, t: Track, x: NodeId, y: NodeId, c: Contact, tick: int)
    requires (c == (x, y) || c == (y, x)) && x != y && x < |tables| && y < |tables| && TablesSound(tables)
    requires t.deliveredAt == 0 && t.dst !in t.carriers && x in t.carriers
    ensures
      var u, hops := Meet(f, tables, t, c, tick), t.carriers[x];
      if y == t.dst then
        u == t.(deliveredAt := tick, delivery := Some(Delivery(tick - t.createdAt, hops)), carriers := t.carriers - {x})
      else if y in t.carriers then u == t
      else if f.Epidemic? || t.copies < f.budget then u == t.(copies := t.copies + 1, carriers := t.carriers[y := hops + 1])
      else if Uphill(tables, x, y, t.dst) then u == t.(carriers := t.carriers[y := hops + 1] - {x})
      else u == t
  {
    hide TablesSound;
    assert BelowOne(tables[x]) && BelowOne(tables[y]) by { RowSound(tables, x); RowSound(tables, y); }
  }

  lemma RowSound(tables: Tables, i: NodeId)
    requires TablesSound(tables) && i < |tables|
    ensures BelowOne(tables[i])
  {
  }

  /** With the budget spent, x gives its copy away to a fresh node exactly when that goes uphill. */
  lemma HandsOverExactly(budget: int, tables: Tables, t: Track, x: NodeId, y: NodeId, c: Contact, tick: int)
    requires (c == (x, y) || c == (y, x)) && x != y && x < |tables| && y < |tables| && TablesSound(tables)
    requires t.deliveredAt == 0 && t.dst !in t.carriers && x in t.carriers
    requires y != t.dst && y !in t.carriers && t.copies >= budget
    ensures x !in Meet(SprayAndWait(budget), tables, t, c, tick).carriers <==> Uphill(tables, x, y, t.dst)
  {
    hide Meet, Uphill, TablesSound;
    MeetMoves(SprayAndWait(budget), tables, t, x, y, c, tick);
  }

  /** Where neither node holds a copy, nothing happens. */
  lemma MeetIdle(f: Forwarder, tables: Tables, t: Track, c: Contact, tick: int)
    requires c.0 < |tables| && c.1 < |tables|
    requires t.deliveredAt != 0 || (c.0 !in t.carriers && c.1 !in t.carriers)
    ensures Meet(f, tables, t, c, tick) == t
  {
  }

  // -------------------------------------------------------------------- runs

  /** The message within a tick, after the first k of its contacts. */
  ghost function Within(f: Forwarder, n: nat, plan: seq<TickPlan>, born: Track, tick: nat, k: nat): Track
    requires ValidPlan(n, plan) && 0 <= born.createdAt <= tick < |plan| && k <= |plan[tick].contacts|
  {
    Mingle(f, TablesAt(n, plan, tick), TrackAt(f, n, plan, born, tick), plan[tick].contacts[..k], tick)
  }

  ghost function TablesWithin(n: nat, plan: seq<TickPlan>, tick: nat, k: nat): (r: Tables)
    requires ValidPlan(n, plan) && tick < |plan| && k <= |plan[tick].contacts|
    ensures |r| == n
  {
    MingleTables(TablesAt(n, plan, tick), plan[tick].contacts[..k], tick)
  }

  /** Who it is from and for never changes, and the destination never carries it. */
  predicate SameMessage(t: Track, born: Track) {
    && t.src == born.src && t.dst == born.dst && t.createdAt == born.createdAt && t.ttl == born.ttl
    && t.dst !in t.carriers && 0 <= t.deliveredAt
  }

  lemma MeetSameMessage(f: Forwarder, tables: Tables, t: Track, born: Track, c: Contact, tick: int)
    requires c.0 < |tables| && c.1 < |tables| && c.0 != c.1 && tick >= 0 && SameMessage(t, born)
    ensures SameMessage(Meet(f, tables, t, c, tick), born)
  {
  }

  lemma {:induction false} MingleSameMessage(f: Forwarder, tables: Tables, t: Track, born: Track,
                                             contacts: seq<Contact>, tick: int)
    requires ValidContacts(|tables|, contacts) && tick >= 0 && SameMessage(t, born)
    ensures SameMessage(Mingle(f, tables, t, contacts, tick), born)
  {
    hide Meet, SameMessage, MingleTables;
    if contacts != [] {
      var k := |contacts| - 1;
      assert contacts[k] in contacts;
      MingleSameMessage(f, tables, t, born, contacts[..k], tick);
      MeetSameMessage(f, MingleTables(tables, contacts, tick), Mingle(f, tables, t, contacts[..k], tick), born,
                      contacts[k], tick);
    }
  }

  lemma {:induction false} TrackSameMessage(f: Forwarder, n: nat, plan: seq<TickPlan>, born: Track, now: nat)
    requires ValidPlan(n, plan) && Newborn(born) && born.createdAt <= now <= |plan|
    ensures SameMessage(TrackAt(f, n, plan, born, now), born)
    decreases now
  {
    hide Mingle, TablesAt;
    if now > born.createdAt {
      TrackSameMessage(f, n, plan, born, now - 1);
      MingleSameMessage(f, TablesAt(n, plan, now - 1), TrackAt(f, n, plan, born, now - 1), born,
                        plan[now - 1].contacts, now - 1);
    }
  }

  /** The next contact of the tick. */
  lemma WithinNext(f: Forwarder, n: nat, plan: seq<TickPlan>, born: Track, tick: nat, k: nat)
    requires ValidPlan(n, plan) && Newborn(born) && born.createdAt <= tick < |plan| && k < |plan[tick].contacts|
    ensures
      var c, tables := plan[tick].contacts[k], TablesWithin(n, plan, tick, k + 1);
      && c.0 < n && c.1 < n && c.0 != c.1 && TablesSound(tables)
      && SameMessage(Within(f, n, plan, born, tick, k), born)
      && Within(f, n, plan, born, tick, k + 1) == Meet(f, tables, Within(f, n, plan, born, tick, k), c, tick)
  {
    hide Meet, MingleTables, TablesSound, SameMessage, TablesAt;
    var contacts := plan[tick].contacts;
    assert contacts[k] in contacts;
    assert contacts[..k + 1][..k] == contacts[..k];
    PredictabilitiesBelowOne(n, plan, tick);
    MingleTablesSound(TablesAt(n, plan, tick), contacts[..k + 1], tick);
    TrackSameMessage(f, n, plan, born, tick);
    MingleSameMessage(f, TablesAt(n, plan, tick), TrackAt(f, n, plan, born, tick), born, contacts[..k], tick);
  }

  predicate HaveMet(n: nat, plan: seq<TickPlan>, tick: nat, k: nat, y: NodeId, z: NodeId)
    requires tick < |plan| && k <= |plan[tick].contacts|
  {
    Paired(plan[tick].contacts[..k], y, z) || exists earlier: nat :: earlier < tick && Paired(plan[earlier].contacts, y, z)
  }

  /** In every run: a node loses an undelivered copy in a contact only to the destination, which takes the
      message, or, once the budget is spent, to a fresh node uphill. That node has met the destination
      before, and has the copy with one more hop. */
  lemma HandoversClimb(f: Forwarder, n: nat, plan: seq<TickPlan>, born: Track, tick: nat, k: nat, x: NodeId, y: NodeId)
    requires ValidPlan(n, plan) && Newborn(born) && born.createdAt <= tick < |plan| && k < |plan[tick].contacts|
    requires plan[tick].contacts[k] == (x, y) || plan[tick].contacts[k] == (y, x)
    requires
      var t, u := Within(f, n, plan, born, tick, k), Within(f, n, plan, born, tick, k + 1);
      t.deliveredAt == 0 && x in t.carriers && x !in u.carriers
    ensures
      var t, u := Within(f, n, plan, born, tick, k), Within(f, n, plan, born, tick, k + 1);
      if y == born.dst then u.delivery == Some(Delivery(tick - born.createdAt, t.carriers[x]))
      else
        && f.SprayAndWait? && t.copies >= f.budget && y !in t.carriers
        && u.carriers == t.carriers[y := t.carriers[x] + 1] - {x} && u.copies == t.copies
        && Uphill(TablesWithin(n, plan, tick, k + 1), x, y, born.dst)
        && HaveMet(n, plan, tick, k + 1, y, born.dst)
  {
    hide Within, TablesWithin, Meet, Uphill, TablesSound;
    WithinNext(f, n, plan, born, tick, k);
    MeetMoves(f, TablesWithin(n, plan, tick, k + 1), Within(f, n, plan, born, tick, k), x, y,
              plan[tick].contacts[k], tick);
    if y != born.dst {
      UphillHasMet(n, plan, tick, k + 1, x, y, born.dst);
    }
  }

  lemma UphillHasMet(n: nat, plan: seq<TickPlan>, tick: nat, k: nat, x: NodeId, y: NodeId, z: NodeId)
    requires ValidPlan(n, plan) && tick < |plan| && k <= |plan[tick].contacts|
    requires Uphill(TablesWithin(n, plan, tick, k), x, y, z)
    ensures HaveMet(n, plan, tick, k, y, z)
  {
    hide MingleTables, TablesAt, Paired, Regular;
    RegularInRuns(n, plan, tick);
    MingleRaises(TablesAt(n, plan, tick), plan[tick].contacts[..k], tick, y, z);
    RecordsAreMeetings(n, plan, tick, y, z);
    assert Entry(TablesWithin(n, plan, tick, k), y, z).Some?;
  }

  // --------------------------------------------------------- whom flooding reaches

  /** Whoever is touched by a contact with the set joins it. */
  function Spread(contacts: seq<Contact>, s: set<NodeId>): set<NodeId> {
    if contacts == [] then s
    else
      var before, c := Spread(contacts[..|contacts| - 1], s), contacts[|contacts| - 1];
      if c.0 in before || c.1 in before then before + {c.0, c.1} else before
  }

  /** The nodes that contacts, one after the other, connect to the source from the message's creation on. */
  function ReachedBy(plan: seq<TickPlan>, src: NodeId, from: nat, now: nat): set<NodeId>
    requires from <= now <= |plan|
    decreases now
  {
    if now == from then {src} else Spread(plan[now - 1].contacts, ReachedBy(plan, src, from, now - 1))
  }

  lemma {:induction false} SpreadGrows(contacts: seq<Contact>, s: set<NodeId>)
    ensures s <= Spread(contacts, s)
  {
    if contacts != [] {
      SpreadGrows(contacts[..|contacts| - 1], s);
    }
  }

  /** Flooding within a tick: delivered exactly when the contacts reach the destination, and until then held
      by exactly the nodes they reach. */
  lemma {:induction false} MingleReaches(tables: Tables, t: Track, contacts: seq<Contact>, tick: int)
    requires ValidContacts(|tables|, contacts) && TablesSound(tables) && tick >= 1
    requires t.deliveredAt == 0 && t.dst !in t.carriers
    ensures
      var u, s := Mingle(Epidemic, tables, t, contacts, tick), Spread(contacts, t.carriers.Keys);
      && u.dst == t.dst && u.dst !in u.carriers
      && (u.deliveredAt != 0 <==> t.dst in s)
      && (u.deliveredAt == 0 ==> u.carriers.Keys == s)
  {
    hide Meet, MingleTables, TablesSound;
    if contacts != [] {
      var k := |contacts| - 1;
      var init, c := contacts[..k], contacts[k];
      assert c in contacts;
      MingleReaches(tables, t, init, tick);
      MingleTablesSound(tables, contacts, tick);
      var u := Mingle(Epidemic, tables, t, init, tick);
      MeetReaches(MingleTables(tables, contacts, tick), u, c, tick);
    }
  }

  lemma MeetReaches(tables: Tables, t: Track, c: Contact, tick: int)
    requires c.0 < |tables| && c.1 < |tables| && c.0 != c.1 && TablesSound(tables) && tick >= 1
    requires t.dst !in t.carriers
    ensures
      var u := Meet(Epidemic, tables, t, c, tick);
      var s := if c.0 in t.carriers || c.1 in t.carriers then t.carriers.Keys + {c.0, c.1} else t.carriers.Keys;
      && u.dst == t.dst && u.dst !in u.carriers
      && (t.deliveredAt != 0 ==> u == t)
      && (t.deliveredAt == 0 ==> (u.deliveredAt != 0 <==> t.dst in s) && (u.deliveredAt == 0 ==> u.carriers.Keys == s))
  {
    hide Meet, TablesSound;
    if t.deliveredAt != 0 || (c.0 !in t.carriers && c.1 !in t.carriers) {
      MeetIdle(Epidemic, tables, t, c, tick);
    } else if c.0 in t.carriers {
      MeetMoves(Epidemic, tables, t, c.0, c.1, c, tick);
    } else {
      MeetMoves(Epidemic, tables, t, c.1, c.0, c, tick);
    }
  }

  /** The last tick at which the message's copies still act. */
  function LastTick(born: Track): int {
    born.createdAt + Max(born.ttl, 0)
  }

  /** Flooding delivers a message exactly when contacts connect its source to its destination, one after
      the other, from its creation to the end of its lifetime. Until it is delivered or its time is up, the
      nodes that hold it are exactly those the contacts so far have connected to the source. */
  lemma {:induction false} FloodIsReachability(n: nat, plan: seq<TickPlan>, born: Track, now: nat)
    requires ValidPlan(n, plan) && Injectable(n, born) && born.createdAt <= now <= |plan|
    ensures
      var t := TrackAt(Epidemic, n, plan, born, now);
      var s := ReachedBy(plan, born.src, born.createdAt, Min(now, LastTick(born) + 1));
      && (t.deliveredAt != 0 <==> born.dst in s)
      && (t.deliveredAt == 0 ==> t.carriers.Keys == if Swept(t, now) then {} else s)
    decreases now
  {
    hide Mingle, TablesAt, Spread;
    TrackSameMessage(Epidemic, n, plan, born, now);
    if now > born.createdAt {
      FloodIsReachability(n, plan, born, now - 1);
      TrackSameMessage(Epidemic, n, plan, born, now - 1);
      var t, contacts := TrackAt(Epidemic, n, plan, born, now - 1), plan[now - 1].contacts;
      var tables := TablesAt(n, plan, now - 1);
      if t.deliveredAt != 0 {
        MingleAfterDelivery(Epidemic, tables, t, contacts, now - 1);
        SpreadGrows(contacts, ReachedBy(plan, born.src, born.createdAt, now - 1));
      } else {
        PredictabilitiesBelowOne(n, plan, now - 1);
        MingleReaches(tables, t, contacts, now - 1);
        if now - 1 > LastTick(born) {
          SpreadNobody(contacts);
        }
      }
    }
  }

  /** No forwarder delivers a message that the contacts do not carry from source to destination in time. */
  lemma DeliveredOnlyIfReachable(f: Forwarder, n: nat, plan: seq<TickPlan>, born: Track, now: nat)
    requires ValidPlan(n, plan) && Injectable(n, born) && born.createdAt <= now <= |plan|
    requires TrackAt(f, n, plan, born, now).deliveredAt != 0
    ensures born.dst in ReachedBy(plan, born.src, born.createdAt, Min(now, LastTick(born) + 1))
  {
    hide TrackAt, ReachedBy;
    FloodOptimal(f, n, plan, born, now);
    FloodIsReachability(n, plan, born, now);
  }

  lemma {:induction false} SpreadNobody(contacts: seq<Contact>)
    ensures Spread(contacts, {}) == {}
  {
    if contacts != [] {
      SpreadNobody(contacts[..|contacts| - 1]);
    }
  }
}
