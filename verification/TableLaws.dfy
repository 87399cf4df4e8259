/** What the predictability tables of the simulator are: who has a record of whom, which entries a contact
    raises and by how much, and which a tick without contacts lets fade. */
module TableLaws {
  import opened Prelude
  import opened Routing
  import opened MessageRun

  function Entry(tables: Tables, i: NodeId, id: NodeId): Option<EncounterStat> {
    if i < |tables| && id in tables[i] then Some(tables[i][id]) else None
  }

  function Chance(e: Option<EncounterStat>): real {
    if e.Some? then e.value.p else 0.0
  }

  /** i and id were in contact. */
  predicate Paired(contacts: seq<Contact>, i: NodeId, id: NodeId) {
    exists k :: 0 <= k < |contacts| && (contacts[k] == (i, id) || contacts[k] == (id, i))
  }

  /** The simulator leaves the peer's name out of its records. */
  ghost predicate Nameless(tables: Tables) {
    forall i, id :: 0 <= i < |tables| && id in tables[i] ==> tables[i][id].peer == None
  }

  ghost predicate Regular(tables: Tables) {
    TablesSound(tables) && Nameless(tables)
  }

  // ------------------------------------------------------------ one encounter

  /** How one entry of the peer's table shrinks the distance to certainty. */
  function Shrink(met: real, theirs: Table): NodeId -> real {
    (id: NodeId) => if id in theirs && theirs[id].p > 0.0 then 1.0 - met * theirs[id].p * 0.25 else 1.0
  }

  lemma {:induction false} ProductSame(f: NodeId -> real, g: NodeId -> real, s: set<NodeId>)
    requires forall x :: x in s ==> f(x) == g(x)
    ensures Product(f, s) == Product(g, s)
    decreases s
  {
    if s != {} {
      ProductSame(f, g, s - {SomeElement(s)});
    }
  }

  /** An encounter goes three quarters of the way to certainty, and on by a quarter of every chance the
      peer has, weighed by our own of reaching the peer. */
  lemma MeetingValue(s: EncounterStat, tick: int, theirs: Table)
    requires 0.0 <= s.p < 1.0 && s.peer == None && BelowOne(theirs)
    ensures
      var met, e := s.p + (1.0 - s.p) * 0.75, Encountered(s, tick, theirs);
      && 1.0 - e.p == (1.0 - met) * Product(Shrink(met, theirs), theirs.Keys)
      && s.p < met <= e.p < 1.0 && 0.75 <= met
      && e == EncounterStat(None, tick, s.encounters + 1, e.p)
  {
    EncounteredClosedForm(s, tick, theirs);
    EncounteredBounds(s, tick, theirs);
    MeetingBounds(s, tick, theirs);
    ProductSame(Dampings(Met(s.p), s.peer, theirs), Shrink(Met(s.p), theirs), theirs.Keys);
    assert (1.0 - s.p) * (1.0 - P_INIT) == 1.0 - Met(s.p);
  }

  lemma MeetingBounds(s: EncounterStat, tick: int, theirs: Table)
    requires 0.0 <= s.p < 1.0 && InUnit(theirs)
    ensures s.p < Met(s.p) <= Encountered(s, tick, theirs).p
  {
    TransitFoldBounds(Met(s.p), s.peer, theirs, theirs.Keys, Met(s.p));
  }

  /** a meets b: a's entry for b takes that value, and no other entry changes. */
  lemma MeetingRaises(tables: Tables, a: NodeId, b: NodeId, tick: int)
    requires a < |tables| && b < |tables| && Regular(tables)
    ensures
      var after := MeetTables(tables, a, b, tick);
      var before, e := Entry(tables, a, b), Entry(after, a, b);
      var met := Chance(before) + (1.0 - Chance(before)) * 0.75;
      && |after| == |tables| && Regular(after) && e.Some?
      && 1.0 - e.value.p == (1.0 - met) * Product(Shrink(met, tables[b]), tables[b].Keys)
      && Chance(before) < met <= e.value.p && 0.75 <= met
      && e.value.lastSeen == tick
      && e.value.encounters == 1 + (if before.Some? then before.value.encounters else 0)
      && forall i: NodeId, id: NodeId :: i != a || id != b ==> Entry(after, i, id) == Entry(tables, i, id)
  {
    hide Encountered, Product, Shrink;
    var s := if b in tables[a] then tables[a][b] else FRESH_STAT;
    MeetTablesSound(tables, a, b, tick);
    MeetingValue(s, tick, tables[b]);
  }

  // -------------------------------------------------------- contacts of a tick

  /** A contact raises exactly the two entries of the nodes that met. */
  lemma ContactRaises(tables: Tables, c: Contact, tick: int)
    requires c.0 < |tables| && c.1 < |tables| && c.0 != c.1 && Regular(tables)
    ensures
      var after := ContactTables(tables, c, tick);
      && |after| == |tables| && Regular(after)
      && Raised(tables, after, c.0, c.1, tick) && Raised(tables, after, c.1, c.0, tick)
      && forall i: NodeId, id: NodeId :: (i, id) != c && (id, i) != c ==> Entry(after, i, id) == Entry(tables, i, id)
  {
    hide MeetTables, Entry, Regular;
    var mid := MeetTables(tables, c.0, c.1, tick);
    MeetingRaises(tables, c.0, c.1, tick);
    MeetingRaises(mid, c.1, c.0, tick);
  }

  predicate Raised(tables: Tables, after: Tables, i: NodeId, id: NodeId, tick: int) {
    var before, e := Entry(tables, i, id), Entry(after, i, id);
    && e.Some? && Chance(before) < e.value.p && e.value.p >= 0.75 && e.value.lastSeen == tick
    && e.value.encounters >= 1 + (if before.Some? then before.value.encounters else 0)
  }

  lemma PairedSnoc(contacts: seq<Contact>, i: NodeId, id: NodeId)
    requires contacts != []
    ensures
      var init, last := contacts[..|contacts| - 1], contacts[|contacts| - 1];
      Paired(contacts, i, id) <==> Paired(init, i, id) || last == (i, id) || last == (id, i)
  {
    var k := |contacts| - 1;
    if Paired(contacts[..k], i, id) {
      var j :| 0 <= j < k && (contacts[..k][j] == (i, id) || contacts[..k][j] == (id, i));
      assert contacts[j] == contacts[..k][j];
    }
    if Paired(contacts, i, id) {
      var j :| 0 <= j < |contacts| && (contacts[j] == (i, id) || contacts[j] == (id, i));
      if j < k {
        assert contacts[..k][j] == contacts[j];
      }
    }
  }

  /** The contacts of a tick raise exactly the entries of the pairs that met. */
  lemma {:induction false} MingleRaises(tables: Tables, contacts: seq<Contact>, tick: int, i: NodeId, id: NodeId)
    requires ValidContacts(|tables|, contacts) && Regular(tables)
    ensures
      var after := MingleTables(tables, contacts, tick);
      && Regular(after)
      && if Paired(contacts, i, id) then Raised(tables, after, i, id, tick) else Entry(after, i, id) == Entry(tables, i, id)
  {
    hide ContactTables, Entry, Regular, Paired;
    if contacts == [] {
      assert !Paired([], i, id) by { NobodyPaired(i, id); }
    } else {
      var k := |contacts| - 1;
      assert contacts[k] in contacts;
      MingleRaises(tables, contacts[..k], tick, i, id);
      ContactRaises(MingleTables(tables, contacts[..k], tick), contacts[k], tick);
      PairedSnoc(contacts, i, id);
    }
  }

  lemma NobodyPaired(i: NodeId, id: NodeId)
    ensures !Paired([], i, id)
  {
  }

  // ------------------------------------------------------------- whole ticks

  /** One unit of fading. */
  function Faded(p: real): real {
    if p * 0.98 < 0.000000001 then 0.0 else p * 0.98
  }

  lemma IdleFades(tables: Tables, contacts: seq<Contact>, i: NodeId, id: NodeId)
    requires Regular(tables)
    ensures
      var before, after := Entry(tables, i, id), Entry(AgeIdle(tables, contacts), i, id);
      && Regular(AgeIdle(tables, contacts))
      && (InContact(contacts, i) ==> after == before)
      && (!InContact(contacts, i) && before.None? ==> after.None?)
      && (!InContact(contacts, i) && before.Some? ==> after == Some(before.value.(p := Faded(before.value.p))))
  {
    hide InContact, TablesSound, Aged;
    assert TablesSound(AgeIdle(tables, contacts)) by { AgeIdleSound(tables, contacts); }
    if i < |tables| && id in tables[i] {
      assert Aged(tables[i][id].p, 1) == Faded(tables[i][id].p) by { AgedOnce(tables[i][id].p); }
    }
  }

  lemma PairedInContact(contacts: seq<Contact>, i: NodeId, id: NodeId)
    requires Paired(contacts, i, id)
    ensures InContact(contacts, i)
  {
  }

  /** A whole tick: the entries of pairs that met go up; a node that met nobody lets all of its entries
      fade by one unit; everything else stays. */
  lemma TickTables(n: nat, plan: seq<TickPlan>, tick: nat, i: NodeId, id: NodeId)
    requires ValidPlan(n, plan) && tick < |plan|
    ensures
      var contacts := plan[tick].contacts;
      var tables, after := TablesAt(n, plan, tick), TablesAt(n, plan, tick + 1);
      var before, now := Entry(tables, i, id), Entry(after, i, id);
      && Regular(after)
      && (Paired(contacts, i, id) ==> Raised(tables, after, i, id, tick))
      && (!Paired(contacts, i, id) && InContact(contacts, i) ==> now == before)
      && (!InContact(contacts, i) ==>
            now == if before.Some? then Some(before.value.(p := Faded(before.value.p))) else None)
  {
    hide MingleTables, AgeIdle, Entry, Regular, Paired, InContact;
    var contacts, tables := plan[tick].contacts, TablesAt(n, plan, tick);
    RegularInRuns(n, plan, tick);
    MingleRaises(tables, contacts, tick, i, id);
    IdleFades(MingleTables(tables, contacts, tick), contacts, i, id);
    if Paired(contacts, i, id) {
      PairedInContact(contacts, i, id);
    }
  }

  lemma {:induction false} RegularInRuns(n: nat, plan: seq<TickPlan>, now: nat)
    requires ValidPlan(n, plan) && now <= |plan|
    ensures Regular(TablesAt(n, plan, now))
  {
    hide MingleTables, AgeIdle;
    if now > 0 {
      var contacts := plan[now - 1].contacts;
      RegularInRuns(n, plan, now - 1);
      hide Regular;
      MingleRaises(TablesAt(n, plan, now - 1), contacts, now - 1, 0, 0);
      IdleFades(MingleTables(TablesAt(n, plan, now - 1), contacts, now - 1), contacts, 0, 0);
    }
  }

  /** A node has a record of another exactly when the two have been in contact. */
  lemma {:induction false} RecordsAreMeetings(n: nat, plan: seq<TickPlan>, now: nat, i: NodeId, id: NodeId)
    requires ValidPlan(n, plan) && now <= |plan|
    ensures Entry(TablesAt(n, plan, now), i, id).Some? <==>
            exists tick: nat :: tick < now && Paired(plan[tick].contacts, i, id)
  {
    hide Paired, InContact, MingleTables, AgeIdle, Regular;
    if now > 0 {
      RecordsAreMeetings(n, plan, now - 1, i, id);
      TickTables(n, plan, now - 1, i, id);
    }
  }
}
