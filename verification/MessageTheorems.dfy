/** What holds of every message in every run of the simulator, for every schedule. */
module MessageTheorems {
  import opened Prelude
  import opened Routing
  import opened MessageRun

  function Max(a: int, b: int): int {
    if a > b then a else b
  }

  function Min(a: int, b: int): int {
    if a < b then a else b
  }

  // ------------------------------------------- conservation and the bounds

  /** Some earlier sweep found the message's time up. */
  predicate Swept(t: Track, tick: int) {
    tick > t.createdAt && tick - 1 - t.createdAt >= t.ttl
  }

  /** Exactly as many nodes hold the message as copies were made and not consumed. */
  predicate Conserved(t: Track, tick: int) {
    |t.carriers| ==
      if t.deliveredAt != 0 then t.copies - 1 else if Swept(t, tick) then 0 else t.copies
  }

  predicate CarriersInRange(t: Track, n: nat) {
    && t.dst !in t.carriers
    && forall x :: x in t.carriers ==> x < n
  }

  /** At most n - 1 copies, and at most the budget when there is one. */
  predicate WithinBudget(f: Forwarder, t: Track, n: nat) {
    && 1 <= t.copies <= n - 1
    && (f.SprayAndWait? ==> t.copies <= Max(1, f.budget))
  }

  /** Without handoffs a copy has taken at most as many hops as there are further copies. */
  predicate HopsBounded(f: Forwarder, t: Track) {
    f.Epidemic? ==>
      && (forall x :: x in t.carriers ==> t.carriers[x] <= t.copies - 1)
      && (t.delivery.Some? ==> t.delivery.value.hops <= t.copies - 1)
  }

  predicate DeliveryRecorded(t: Track) {
    && (t.delivery.Some? <==> t.deliveredAt != 0)
    && (t.delivery.Some? ==>
          && t.delivery.value.latency == t.deliveredAt - t.createdAt
          && 0 <= t.delivery.value.latency <= Max(t.ttl, 0))
  }

  predicate Sound(f: Forwarder, t: Track, n: nat, tick: int) {
    && t.src < n && t.dst < n && t.src != t.dst
    && 1 <= t.createdAt <= tick
    && CarriersInRange(t, n)
    && Conserved(t, tick)
    && WithinBudget(f, t, n)
    && HopsBounded(f, t)
    && DeliveryRecorded(t)
  }

  /** What a contact snapshot says about an undelivered message is still true. */
  predicate Current(t: Track, held: Option<nat>, x: NodeId) {
    t.deliveredAt == 0 && held.Some? ==> x in t.carriers && t.carriers[x] == held.value
  }

  lemma CarriersBound(t: Track, n: nat)
    requires CarriersInRange(t, n) && t.dst < n
    ensures |t.carriers| <= n - 1
    ensures forall y: nat :: y < n && y != t.dst && y !in t.carriers ==> |t.carriers| <= n - 2
  {
    CardinalityMonotone(t.carriers.Keys, Range(n) - {t.dst});
    assert |t.carriers| == |t.carriers.Keys|;
    forall y: nat | y < n && y != t.dst && y !in t.carriers
      ensures |t.carriers| <= n - 2
    {
      var others := Range(n) - {t.dst};
      assert y in others;
      CardinalityMonotone(t.carriers.Keys, others - {y});
    }
  }

  lemma OfferSound(f: Forwarder, t: Track, held: Option<nat>, x: NodeId, y: NodeId,
                   myP: real, peerP: real, n: nat, tick: int)
    requires Sound(f, t, n, tick) && Current(t, held, x) && x != y && x < n && y < n
    ensures Sound(f, Offer(f, t, held, x, y, myP, peerP, tick), n, tick)
  {
    var u := Offer(f, t, held, x, y, myP, peerP, tick);
    if held.Some? && t.deliveredAt == 0 {
      CarriersBound(t, n);
      match Decide(f, t.dst, t.copies, y, myP, peerP, y in t.carriers)
      case Deliver =>
        assert u.carriers.Keys == t.carriers.Keys - {x};
      case Spray =>
        assert u.carriers.Keys == t.carriers.Keys + {y};
      case Handoff =>
        assert u.carriers.Keys == t.carriers.Keys + {y} - {x};
      case Keep =>
      case Dup =>
    }
  }

  lemma OfferKeepsSnapshot(f: Forwarder, t: Track, held: Option<nat>, x: NodeId, y: NodeId,
                           myP: real, peerP: real, tick: int, z: NodeId)
    requires z != x && tick != 0
    ensures Current(Offer(f, t, held, x, y, myP, peerP, tick), Holding(t, z), z)
  {
  }

  lemma MeetSound(f: Forwarder, tables: Tables, t: Track, c: Contact, tick: int)
    requires c.0 < |tables| && c.1 < |tables| && c.0 != c.1
    requires Sound(f, t, |tables|, tick)
    ensures Sound(f, Meet(f, tables, t, c, tick), |tables|, tick)
  {
    var n := |tables|;
    var p0, p1 := Predict(tables[c.0], t.dst), Predict(tables[c.1], t.dst);
    OfferSound(f, t, Holding(t, c.0), c.0, c.1, p0, p1, n, tick);
    OfferKeepsSnapshot(f, t, Holding(t, c.0), c.0, c.1, p0, p1, tick, c.1);
    var there := Offer(f, t, Holding(t, c.0), c.0, c.1, p0, p1, tick);
    OfferSound(f, there, Holding(t, c.1), c.1, c.0, p1, p0, n, tick);
  }

  lemma {:induction false} MingleSound(f: Forwarder, tables: Tables, t: Track, contacts: seq<Contact>, tick: int)
    requires ValidContacts(|tables|, contacts)
    requires Sound(f, t, |tables|, tick)
    ensures Sound(f, Mingle(f, tables, t, contacts, tick), |tables|, tick)
  {
    if contacts != [] {
      var init, c := contacts[..|contacts| - 1], contacts[|contacts| - 1];
      assert c in contacts;
      MingleSound(f, tables, t, init, tick);
      MeetSound(f, MingleTables(tables, contacts, tick), Mingle(f, tables, t, init, tick), c, tick);
    }
  }

  lemma TickSound(f: Forwarder, n: nat, plan: seq<TickPlan>, t: Track, tick: nat)
    requires ValidPlan(n, plan) && tick < |plan| && Sound(f, t, n, tick)
    ensures Sound(f, Tick(f, n, plan, t, tick), n, tick + 1)
  {
    MingleSound(f, TablesAt(n, plan, tick), t, plan[tick].contacts, tick);
  }

  /** A message the simulator can inject from tick 1 on. */
  predicate Injectable(n: nat, born: Track) {
    && born.src < n && born.dst < n && born.src != born.dst
    && born == Born(born.src, born.dst, born.createdAt, born.ttl)
    && 1 <= born.createdAt
  }

  lemma BornSound(f: Forwarder, n: nat, born: Track)
    requires Injectable(n, born)
    ensures Sound(f, born, n, born.createdAt)
  {
    assert |born.carriers| == 1;
  }

  /** Copies are conserved exactly, stay within the budget and below the number of nodes, and the
      delivery record is right, at the start of every tick of every run. */
  lemma {:induction false} RunSound(f: Forwarder, n: nat, plan: seq<TickPlan>, born: Track, now: nat)
    requires ValidPlan(n, plan) && Injectable(n, born) && born.createdAt <= now <= |plan|
    ensures Sound(f, TrackAt(f, n, plan, born, now), n, now)
    decreases now
  {
    hide Mingle, TablesAt;
    if now == born.createdAt {
      BornSound(f, n, born);
    } else {
      RunSound(f, n, plan, born, now - 1);
      TickSound(f, n, plan, TrackAt(f, n, plan, born, now - 1), now - 1);
    }
  }

  // ------------------------------------------------- the tick-zero sentinel

  /** Conservation over every forwarder, network, schedule and message created at this tick. */
  ghost predicate ConservedFrom(createdAt: nat) {
    forall f, n: nat, plan, src: nat, dst: nat, ttl, now: nat ::
      ValidPlan(n, plan) && src < n && dst < n && src != dst && createdAt <= now <= |plan| ==>
        Conserved(TrackAt(f, n, plan, Born(src, dst, createdAt, ttl), now), now)
  }

  /** Zero doubles as "not delivered", so a delivery at tick 0 is lost: the copy is consumed and the
      message still counts as undelivered. */
  lemma TickZeroDeliveryIsLost(f: Forwarder)
    ensures
      var plan := [TickPlan(0, 0, [(0, 1)])];
      var t := TrackAt(f, 2, plan, Born(0, 1, 0, 5), 1);
      && ValidPlan(2, plan) && t.delivery == Some(Delivery(0, 0)) && t.deliveredAt == 0 && t.carriers == map[]
      && !Conserved(t, 1)
  {
    hide TablesAt, MingleTables, ContactTables;
    var contacts: seq<Contact> := [(0, 1)];
    var plan := [TickPlan(0, 0, contacts)];
    var born := Born(0, 1, 0, 5);
    MingleOnce(f, TablesAt(2, plan, 0), born, (0, 1), 0);
    MeetAtTickZero(f, MingleTables(TablesAt(2, plan, 0), contacts, 0), born);
    assert TrackAt(f, 2, plan, born, 0) == born;
  }

  lemma MingleOnce(f: Forwarder, tables: Tables, t: Track, c: Contact, tick: int)
    requires ValidContacts(|tables|, [c])
    ensures Mingle(f, tables, t, [c], tick) == Meet(f, MingleTables(tables, [c], tick), t, c, tick)
  {
    hide MingleTables;
    var contacts := [c];
    assert contacts[..0] == [];
    assert Mingle(f, tables, t, contacts[..0], tick) == t;
  }

  lemma MeetAtTickZero(f: Forwarder, tables: Tables, t: Track)
    requires |tables| == 2 && t == Born(0, 1, 0, 5)
    ensures
      var u := Meet(f, tables, t, (0, 1), 0);
      u == t.(delivery := Some(Delivery(0, 0)), carriers := map[])
  {
    assert t.carriers - {0} == map[];
  }

  /** Conservation holds in every run exactly for the messages created after tick 0. */
  lemma ConservedExactlyAfterTickZero(createdAt: nat)
    ensures ConservedFrom(createdAt) <==> createdAt >= 1
  {
    hide TrackAt;
    if createdAt >= 1 {
      forall f, n: nat, plan, src: nat, dst: nat, ttl, now: nat
        | ValidPlan(n, plan) && src < n && dst < n && src != dst && createdAt <= now <= |plan|
        ensures Conserved(TrackAt(f, n, plan, Born(src, dst, createdAt, ttl), now), now)
      {
        RunSound(f, n, plan, Born(src, dst, createdAt, ttl), now);
      }
    } else if ConservedFrom(0) {
      ConservedInstance(Epidemic, 2, [TickPlan(0, 0, [(0, 1)])], 0, 1, 0, 5, 1);
      TickZeroDeliveryIsLost(Epidemic);
    }
  }

  lemma ConservedInstance(f: Forwarder, n: nat, plan: seq<TickPlan>, src: nat, dst: nat, createdAt: nat,
                          ttl: int, now: nat)
    requires ConservedFrom(createdAt)
    requires ValidPlan(n, plan) && src < n && dst < n && src != dst && createdAt <= now <= |plan|
    ensures Conserved(TrackAt(f, n, plan, Born(src, dst, createdAt, ttl), now), now)
  {
  }

  // ----------------------------------------------------- delivery is final

  lemma {:induction false} MingleAfterDelivery(f: Forwarder, tables: Tables, t: Track,
                                               contacts: seq<Contact>, tick: int)
    requires ValidContacts(|tables|, contacts) && t.deliveredAt != 0
    ensures Mingle(f, tables, t, contacts, tick) == t
  {
    if contacts != [] {
      MingleAfterDelivery(f, tables, t, contacts[..|contacts| - 1], tick);
    }
  }

  lemma TickAfterDelivery(f: Forwarder, n: nat, plan: seq<TickPlan>, t: Track, tick: nat)
    requires ValidPlan(n, plan) && tick < |plan| && t.deliveredAt != 0
    ensures Tick(f, n, plan, t, tick) == t
  {
    MingleAfterDelivery(f, TablesAt(n, plan, tick), t, plan[tick].contacts, tick);
  }

  /** Once delivered, a message's record never changes again: it is delivered at most once. */
  lemma {:induction false} DeliveryIsFinal(f: Forwarder, n: nat, plan: seq<TickPlan>, born: Track,
                                           earlier: nat, now: nat)
    requires ValidPlan(n, plan) && 0 <= born.createdAt <= earlier <= now <= |plan|
    requires TrackAt(f, n, plan, born, earlier).deliveredAt != 0
    ensures TrackAt(f, n, plan, born, now) == TrackAt(f, n, plan, born, earlier)
    decreases now
  {
    hide Mingle, TablesAt;
    if earlier < now {
      DeliveryIsFinal(f, n, plan, born, earlier, now - 1);
      NextAfterDelivery(f, n, plan, born, now);
    }
  }

  lemma NextAfterDelivery(f: Forwarder, n: nat, plan: seq<TickPlan>, born: Track, now: nat)
    requires ValidPlan(n, plan) && 0 <= born.createdAt < now <= |plan|
    requires TrackAt(f, n, plan, born, now - 1).deliveredAt != 0
    ensures TrackAt(f, n, plan, born, now) == TrackAt(f, n, plan, born, now - 1)
  {
    hide Mingle, TablesAt;
    TickAfterDelivery(f, n, plan, TrackAt(f, n, plan, born, now - 1), now - 1);
  }

  // ------------------------------------------------------ flood optimality

  /** Flooding has already delivered, or the other has not and holds no node flooding lacks. */
  predicate Dominates(e: Track, s: Track) {
    && e.dst == s.dst && e.createdAt == s.createdAt && e.ttl == s.ttl
    && e.dst !in e.carriers && s.dst !in s.carriers
    && 0 <= e.deliveredAt
    && (s.deliveredAt != 0 ==> 0 < e.deliveredAt <= s.deliveredAt)
    && (e.deliveredAt == 0 ==> s.deliveredAt == 0 && s.carriers.Keys <= e.carriers.Keys)
  }

  /** Who held a copy when the contact began still does, unless flooding has been recorded as delivering. */
  predicate StillHeld(e: Track, t: Track, held: Option<nat>, x: NodeId) {
    e.deliveredAt == 0 && held.Some? ==> x in t.carriers
  }

  lemma OfferDominates(f: Forwarder, e: Track, s: Track, heldE: Option<nat>, heldS: Option<nat>,
                       x: NodeId, y: NodeId, myP: real, peerP: real, tick: int)
    requires x != y && tick >= 0 && Dominates(e, s) && e.deliveredAt <= tick
    requires e.deliveredAt == 0 && heldS.Some? ==> heldE.Some?
    requires e.deliveredAt == 0 && y == s.dst && x in s.carriers ==> heldS.Some?
    requires StillHeld(e, e, heldE, x) && StillHeld(e, s, heldS, x)
    ensures
      var e' := Offer(Epidemic, e, heldE, x, y, myP, peerP, tick);
      var s' := Offer(f, s, heldS, x, y, myP, peerP, tick);
      Dominates(e', s') && e'.deliveredAt <= tick
  {
  }

  /** An offer by x takes a copy from nobody else. */
  lemma OfferLeavesOthers(f: Forwarder, t: Track, held: Option<nat>, x: NodeId, y: NodeId,
                          myP: real, peerP: real, tick: int, z: NodeId)
    requires z != x
    ensures
      var u := Offer(f, t, held, x, y, myP, peerP, tick);
      && (z in t.carriers ==> z in u.carriers)
      && (z != y ==> (z in u.carriers <==> z in t.carriers))
  {
  }

  lemma MeetDominates(f: Forwarder, tables: Tables, e: Track, s: Track, c: Contact, tick: int)
    requires c.0 < |tables| && c.1 < |tables| && c.0 != c.1
    requires tick >= 0 && Dominates(e, s) && e.deliveredAt <= tick
    ensures Dominates(Meet(Epidemic, tables, e, c, tick), Meet(f, tables, s, c, tick))
    ensures Meet(Epidemic, tables, e, c, tick).deliveredAt <= tick
  {
    hide Offer;
    var p0, p1 := Predict(tables[c.0], e.dst), Predict(tables[c.1], e.dst);
    var e' := Offer(Epidemic, e, Holding(e, c.0), c.0, c.1, p0, p1, tick);
    var s' := Offer(f, s, Holding(s, c.0), c.0, c.1, p0, p1, tick);
    OfferDominates(f, e, s, Holding(e, c.0), Holding(s, c.0), c.0, c.1, p0, p1, tick);
    OfferLeavesOthers(Epidemic, e, Holding(e, c.0), c.0, c.1, p0, p1, tick, c.1);
    OfferLeavesOthers(f, s, Holding(s, c.0), c.0, c.1, p0, p1, tick, c.1);
    DeliveryStays(Epidemic, e, Holding(e, c.0), c.0, c.1, p0, p1, tick);
    if c.0 == s.dst {
      NothingHeld(f, s, Holding(s, c.0), c.0, c.1, p0, p1, tick);
    }
    OfferDominates(f, e', s', Holding(e, c.1), Holding(s, c.1), c.1, c.0, p1, p0, tick);
  }

  lemma DeliveryStays(f: Forwarder, t: Track, held: Option<nat>, x: NodeId, y: NodeId, myP: real, peerP: real, tick: int)
    ensures t.deliveredAt != 0 ==> Offer(f, t, held, x, y, myP, peerP, tick) == t
    ensures Offer(f, t, held, x, y, myP, peerP, tick).dst == t.dst
  {
  }

  lemma NothingHeld(f: Forwarder, t: Track, held: Option<nat>, x: NodeId, y: NodeId, myP: real, peerP: real, tick: int)
    requires held.None?
    ensures Offer(f, t, held, x, y, myP, peerP, tick) == t
  {
  }

  lemma {:induction false} MingleDominates(f: Forwarder, tables: Tables, e: Track, s: Track,
                                           contacts: seq<Contact>, tick: int)
    requires ValidContacts(|tables|, contacts)
    requires tick >= 0 && Dominates(e, s) && e.deliveredAt <= tick
    ensures Dominates(Mingle(Epidemic, tables, e, contacts, tick), Mingle(f, tables, s, contacts, tick))
    ensures Mingle(Epidemic, tables, e, contacts, tick).deliveredAt <= tick
  {
    if contacts != [] {
      var init, c := contacts[..|contacts| - 1], contacts[|contacts| - 1];
      assert c in contacts;
      MingleDominates(f, tables, e, s, init, tick);
      MeetDominates(f, MingleTables(tables, contacts, tick),
                    Mingle(Epidemic, tables, e, init, tick), Mingle(f, tables, s, init, tick), c, tick);
    }
  }

  lemma TickDominates(f: Forwarder, n: nat, plan: seq<TickPlan>, e: Track, s: Track, tick: nat)
    requires ValidPlan(n, plan) && tick < |plan| && Dominates(e, s) && e.deliveredAt <= tick
    ensures Dominates(Tick(Epidemic, n, plan, e, tick), Tick(f, n, plan, s, tick))
    ensures Tick(Epidemic, n, plan, e, tick).deliveredAt <= tick
  {
    MingleDominates(f, TablesAt(n, plan, tick), e, s, plan[tick].contacts, tick);
  }

  /** A message the simulator can inject, at whatever tick. */
  predicate Newborn(born: Track) {
    && born.src != born.dst && 0 <= born.createdAt
    && born == Born(born.src, born.dst, born.createdAt, born.ttl)
  }

  /** On one schedule, whatever a message's fate under any forwarder, flooding does at least as well:
      it delivers whatever the other delivers, no later; and until it does, every node that holds the
      message under the other forwarder holds it under flooding. A delivery lost at tick 0 is no exception. */
  lemma {:induction false} FloodOptimal(f: Forwarder, n: nat, plan: seq<TickPlan>, born: Track, now: nat)
    requires ValidPlan(n, plan) && Newborn(born) && born.createdAt <= now <= |plan|
    ensures Dominates(TrackAt(Epidemic, n, plan, born, now), TrackAt(f, n, plan, born, now))
    ensures TrackAt(Epidemic, n, plan, born, now).deliveredAt <= now
    decreases now
  {
    hide Mingle, TablesAt;
    if now > born.createdAt {
      FloodOptimal(f, n, plan, born, now - 1);
      TickDominates(f, n, plan, TrackAt(Epidemic, n, plan, born, now - 1),
                    TrackAt(f, n, plan, born, now - 1), now - 1);
    }
  }

  // ------------------------------------------- a large budget is no budget

  lemma OfferSame(budget: int, t: Track, held: Option<nat>, x: NodeId, y: NodeId,
                  myP: real, peerP: real, n: nat, tick: int)
    requires budget >= n - 1 && y < n
    requires Sound(Epidemic, t, n, tick) && Current(t, held, x)
    ensures Offer(SprayAndWait(budget), t, held, x, y, myP, peerP, tick)
              == Offer(Epidemic, t, held, x, y, myP, peerP, tick)
  {
    CarriersBound(t, n);
  }

  lemma MeetSame(budget: int, tables: Tables, t: Track, c: Contact, tick: int)
    requires c.0 < |tables| && c.1 < |tables| && c.0 != c.1
    requires budget >= |tables| - 1 && Sound(Epidemic, t, |tables|, tick)
    ensures Meet(SprayAndWait(budget), tables, t, c, tick) == Meet(Epidemic, tables, t, c, tick)
  {
    var n := |tables|;
    var p0, p1 := Predict(tables[c.0], t.dst), Predict(tables[c.1], t.dst);
    OfferSame(budget, t, Holding(t, c.0), c.0, c.1, p0, p1, n, tick);
    OfferSound(Epidemic, t, Holding(t, c.0), c.0, c.1, p0, p1, n, tick);
    OfferKeepsSnapshot(Epidemic, t, Holding(t, c.0), c.0, c.1, p0, p1, tick, c.1);
    var there := Offer(Epidemic, t, Holding(t, c.0), c.0, c.1, p0, p1, tick);
    OfferSame(budget, there, Holding(t, c.1), c.1, c.0, p1, p0, n, tick);
  }

  lemma {:induction false} MingleSame(budget: int, tables: Tables, t: Track, contacts: seq<Contact>, tick: int)
    requires ValidContacts(|tables|, contacts)
    requires budget >= |tables| - 1 && Sound(Epidemic, t, |tables|, tick)
    ensures Mingle(SprayAndWait(budget), tables, t, contacts, tick) == Mingle(Epidemic, tables, t, contacts, tick)
  {
    if contacts != [] {
      var init, c := contacts[..|contacts| - 1], contacts[|contacts| - 1];
      assert c in contacts;
      MingleSame(budget, tables, t, init, tick);
      MingleSound(Epidemic, tables, t, init, tick);
      MeetSame(budget, MingleTables(tables, contacts, tick), Mingle(Epidemic, tables, t, init, tick), c, tick);
    }
  }

  lemma TickSame(budget: int, n: nat, plan: seq<TickPlan>, t: Track, tick: nat)
    requires ValidPlan(n, plan) && tick < |plan| && budget >= n - 1 && Sound(Epidemic, t, n, tick)
    ensures Tick(SprayAndWait(budget), n, plan, t, tick) == Tick(Epidemic, n, plan, t, tick)
  {
    MingleSame(budget, TablesAt(n, plan, tick), t, plan[tick].contacts, tick);
  }

  /** With a budget of at least n - 1, spray-and-wait is flooding, on every schedule and at every tick. */
  lemma {:induction false} LargeBudgetIsFlooding(budget: int, n: nat, plan: seq<TickPlan>, born: Track, now: nat)
    requires ValidPlan(n, plan) && Injectable(n, born) && born.createdAt <= now <= |plan|
    requires budget >= n - 1
    ensures TrackAt(SprayAndWait(budget), n, plan, born, now) == TrackAt(Epidemic, n, plan, born, now)
    decreases now
  {
    hide Mingle, TablesAt;
    if now > born.createdAt {
      LargeBudgetIsFlooding(budget, n, plan, born, now - 1);
      RunSound(Epidemic, n, plan, born, now - 1);
      TickSame(budget, n, plan, TrackAt(Epidemic, n, plan, born, now - 1), now - 1);
    }
  }

  // ---------------------------------------- what tick zero costs the budget

  /** In every run of every network, a large budget and flooding treat such a message alike. */
  ghost predicate AgreesFrom(createdAt: nat) {
    forall n: nat, plan, src: nat, dst: nat, ttl, budget, now: nat ::
      ValidPlan(n, plan) && src < n && dst < n && src != dst && createdAt <= now <= |plan| && budget >= n - 1 ==>
        TrackAt(SprayAndWait(budget), n, plan, Born(src, dst, createdAt, ttl), now)
          == TrackAt(Epidemic, n, plan, Born(src, dst, createdAt, ttl), now)
  }

  /** In every run of every network and under every forwarder, such a message has at most n - 1 copies. */
  ghost predicate BoundedFrom(createdAt: nat) {
    forall f, n: nat, plan, src: nat, dst: nat, ttl, now: nat ::
      ValidPlan(n, plan) && src < n && dst < n && src != dst && createdAt <= now <= |plan| ==>
        TrackAt(f, n, plan, Born(src, dst, createdAt, ttl), now).copies <= n - 1
  }

  const LOST_PLAN: seq<TickPlan> := [TickPlan(0, 1, [(0, 1), (0, 2)]), TickPlan(0, 1, [(0, 1)])]

  /** Three nodes. The source gives node 1 a copy and loses its own in a delivery at tick 0; at tick 1
      flooding gives it a third, which a budget of two does not. */
  lemma TickZeroOvershoots(f: Forwarder)
    requires f == Epidemic || f == SprayAndWait(2)
    ensures ValidPlan(3, LOST_PLAN)
    ensures TrackAt(f, 3, LOST_PLAN, Born(0, 2, 0, 5), 2).copies == if f.Epidemic? then 3 else 2
  {
    hide TablesAt, MingleTables, Meet, Mingle;
    var born := Born(0, 2, 0, 5);
    var t0, t1 := TablesAt(3, LOST_PLAN, 0), TablesAt(3, LOST_PLAN, 1);
    MingleTwice(f, t0, born, (0, 1), (0, 2), 0);
    CopyGiven(f, MingleTables(t0, [(0, 1)], 0));
    CopyLost(f, MingleTables(t0, [(0, 1), (0, 2)], 0));
    assert TrackAt(f, 3, LOST_PLAN, born, 0) == born;
    assert TrackAt(f, 3, LOST_PLAN, born, 1) == LOST;
    MingleOnce(f, t1, LOST, (0, 1), 1);
    CopyGivenBack(f, MingleTables(t1, [(0, 1)], 1));
  }

  const SHARED := Track(0, 2, 0, 5, 2, 0, map[0 := 0, 1 := 1], None)
  const LOST := Track(0, 2, 0, 5, 2, 0, map[1 := 1], Some(Delivery(0, 0)))

  lemma MingleTwice(f: Forwarder, tables: Tables, t: Track, c: Contact, d: Contact, tick: int)
    requires ValidContacts(|tables|, [c]) && ValidContacts(|tables|, [c, d])
    ensures Mingle(f, tables, t, [c, d], tick)
              == Meet(f, MingleTables(tables, [c, d], tick), Meet(f, MingleTables(tables, [c], tick), t, c, tick), d, tick)
  {
    hide MingleTables, Meet;
    assert [c, d][..1] == [c];
    MingleOnce(f, tables, t, c, tick);
  }

  lemma CopyGiven(f: Forwarder, tables: Tables)
    requires |tables| == 3 && (f == Epidemic || f == SprayAndWait(2))
    ensures Meet(f, tables, Born(0, 2, 0, 5), (0, 1), 0) == SHARED
  {
    var p0, p1 := Predict(tables[0], 2), Predict(tables[1], 2);
    assert Offer(f, Born(0, 2, 0, 5), Some(0), 0, 1, p0, p1, 0) == SHARED;
  }

  lemma CopyLost(f: Forwarder, tables: Tables)
    requires |tables| == 3
    ensures Meet(f, tables, SHARED, (0, 2), 0) == LOST
  {
    var p0, p2 := Predict(tables[0], 2), Predict(tables[2], 2);
    assert SHARED.carriers - {0} == LOST.carriers;
    assert Offer(f, SHARED, Some(0), 0, 2, p0, p2, 0) == LOST;
  }

  lemma CopyGivenBack(f: Forwarder, tables: Tables)
    requires |tables| == 3 && (f == Epidemic || f == SprayAndWait(2))
    ensures Meet(f, tables, LOST, (0, 1), 1).copies == if f.Epidemic? then 3 else 2
  {
  }

  /** A large budget is flooding exactly for the messages created after tick 0. */
  lemma AgreesExactlyAfterTickZero(createdAt: nat)
    ensures AgreesFrom(createdAt) <==> createdAt >= 1
  {
    hide TrackAt;
    if createdAt >= 1 {
      forall n: nat, plan, src: nat, dst: nat, ttl, budget, now: nat
        | ValidPlan(n, plan) && src < n && dst < n && src != dst && createdAt <= now <= |plan| && budget >= n - 1
        ensures TrackAt(SprayAndWait(budget), n, plan, Born(src, dst, createdAt, ttl), now)
                  == TrackAt(Epidemic, n, plan, Born(src, dst, createdAt, ttl), now)
      {
        LargeBudgetIsFlooding(budget, n, plan, Born(src, dst, createdAt, ttl), now);
      }
    } else if AgreesFrom(0) {
      assert ValidPlan(3, LOST_PLAN);
      AgreesInstance(3, LOST_PLAN, 0, 2, 0, 5, 2, 2);
      TickZeroOvershoots(Epidemic);
      TickZeroOvershoots(SprayAndWait(2));
    }
  }

  lemma AgreesInstance(n: nat, plan: seq<TickPlan>, src: nat, dst: nat, createdAt: nat, ttl: int, budget: int, now: nat)
    requires AgreesFrom(createdAt) && budget >= n - 1
    requires ValidPlan(n, plan) && src < n && dst < n && src != dst && createdAt <= now <= |plan|
    ensures TrackAt(SprayAndWait(budget), n, plan, Born(src, dst, createdAt, ttl), now)
              == TrackAt(Epidemic, n, plan, Born(src, dst, createdAt, ttl), now)
  {
  }

  /** The bound n - 1 on the copies holds exactly for the messages created after tick 0. */
  lemma BoundedExactlyAfterTickZero(createdAt: nat)
    ensures BoundedFrom(createdAt) <==> createdAt >= 1
  {
    hide TrackAt;
    if createdAt >= 1 {
      forall f, n: nat, plan, src: nat, dst: nat, ttl, now: nat
        | ValidPlan(n, plan) && src < n && dst < n && src != dst && createdAt <= now <= |plan|
        ensures TrackAt(f, n, plan, Born(src, dst, createdAt, ttl), now).copies <= n - 1
      {
        RunSound(f, n, plan, Born(src, dst, createdAt, ttl), now);
      }
    } else if BoundedFrom(0) {
      assert ValidPlan(3, LOST_PLAN);
      BoundedInstance(Epidemic, 3, LOST_PLAN, 0, 2, 0, 5, 2);
      TickZeroOvershoots(Epidemic);
    }
  }

  lemma BoundedInstance(f: Forwarder, n: nat, plan: seq<TickPlan>, src: nat, dst: nat, createdAt: nat, ttl: int, now: nat)
    requires BoundedFrom(createdAt)
    requires ValidPlan(n, plan) && src < n && dst < n && src != dst && createdAt <= now <= |plan|
    ensures TrackAt(f, n, plan, Born(src, dst, createdAt, ttl), now).copies <= n - 1
  {
  }

  // --------------------------------------- leftover copies change nothing

  /** The sweep its comment describes: delivered and expired copies both go. */
  function SweepAll(t: Track, tick: int): Track {
    if t.deliveredAt == 0 && tick - t.createdAt < t.ttl then t else t.(carriers := map[])
  }

  ghost function TickSweepingAll(f: Forwarder, n: nat, plan: seq<TickPlan>, t: Track, tick: nat): Track
    requires ValidPlan(n, plan) && tick < |plan|
  {
    SweepAll(Mingle(f, TablesAt(n, plan, tick), t, plan[tick].contacts, tick), tick)
  }

  ghost function TrackAtSweepingAll(f: Forwarder, n: nat, plan: seq<TickPlan>, born: Track, now: nat): Track
    requires ValidPlan(n, plan) && 0 <= born.createdAt <= now <= |plan|
    decreases now
  {
    if now == born.createdAt then born
    else TickSweepingAll(f, n, plan, TrackAtSweepingAll(f, n, plan, born, now - 1), now - 1)
  }

  /** Equal but for the leftover copies of a delivered message. */
  predicate SameRecord(t: Track, u: Track) {
    && u == t.(carriers := u.carriers)
    && (t.deliveredAt == 0 ==> u == t)
  }

  lemma TickSameRecord(f: Forwarder, n: nat, plan: seq<TickPlan>, t: Track, u: Track, tick: nat)
    requires ValidPlan(n, plan) && tick < |plan| && SameRecord(t, u)
    ensures SameRecord(Tick(f, n, plan, t, tick), TickSweepingAll(f, n, plan, u, tick))
  {
    if t.deliveredAt != 0 {
      MingleAfterDelivery(f, TablesAt(n, plan, tick), t, plan[tick].contacts, tick);
      MingleAfterDelivery(f, TablesAt(n, plan, tick), u, plan[tick].contacts, tick);
    }
  }

  /** Sweeping delivered copies as well leaves every message with the same record in every run. */
  lemma {:induction false} SweepRefinement(f: Forwarder, n: nat, plan: seq<TickPlan>, born: Track, now: nat)
    requires ValidPlan(n, plan) && 0 <= born.createdAt <= now <= |plan|
    ensures SameRecord(TrackAt(f, n, plan, born, now), TrackAtSweepingAll(f, n, plan, born, now))
    decreases now
  {
    hide Mingle, TablesAt;
    if now > born.createdAt {
      SweepRefinement(f, n, plan, born, now - 1);
      TickSameRecord(f, n, plan, TrackAt(f, n, plan, born, now - 1),
                     TrackAtSweepingAll(f, n, plan, born, now - 1), now - 1);
    }
  }
}
