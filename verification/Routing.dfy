/** The store-and-forward decision layer: PROPHET predictability and the two forwarders. */
module Routing {
  import opened Prelude

  const P_INIT: real := 0.75
  const BETA: real := 0.25
  const GAMMA: real := 0.98
  const AGE_UNITS: int := 1
  const MAX_PREDICT: real := 1.0
  const FLOOR: real := 0.000000001

  /** A node's memory of one other node. `peer` is None for the zero value of the record. */
  datatype EncounterStat = EncounterStat(peer: Option<NodeId>, lastSeen: int, encounters: int, p: real)

  const FRESH_STAT := EncounterStat(None, 0, 0, 0.0)

  type Table = map<NodeId, EncounterStat>

  /** Predictabilities are probabilities. */
  ghost predicate InUnit(table: Table) {
    forall id :: id in table ==> 0.0 <= table[id].p <= 1.0
  }

  /** ... that never reach certainty. */
  ghost predicate BelowOne(table: Table) {
    forall id :: id in table ==> 0.0 <= table[id].p < 1.0
  }

  // ------------------------------------------- products of probabilities

  lemma MulMonotone(x: real, y: real, z: real)
    requires x <= y && 0.0 <= z
    ensures x * z <= y * z
  {
    assert 0.0 <= (y - x) * z;
  }

  lemma UnitProduct(x: real, y: real)
    requires 0.0 <= x <= 1.0 && 0.0 <= y <= 1.0
    ensures 0.0 <= x * y <= x
    ensures 0.0 < x && 0.0 < y ==> 0.0 < x * y
  {
    MulMonotone(y, 1.0, x);
    MulMonotone(0.0, y, x);
  }

  lemma Reassociate(x: real, y: real, z: real)
    ensures x * (y * z) == y * (x * z) == (x * y) * z
  {
  }

  ghost function SomeElement(s: set<NodeId>): (x: NodeId)
    requires s != {}
    ensures x in s
  {
    var x :| x in s; x
  }

  /** Apply `step` once for every element of s. */
  ghost function Fold(step: (real, NodeId) -> real, s: set<NodeId>, p: real): real
    decreases s
  {
    if s == {} then p
    else
      var x := SomeElement(s);
      Fold(step, s - {x}, step(p, x))
  }

  ghost predicate Commuting(step: (real, NodeId) -> real) {
    forall p, x, y {:trigger step(step(p, x), y)} :: step(step(p, x), y) == step(step(p, y), x)
  }

  /** With commuting steps it does not matter which element is taken first. */
  lemma {:induction false} FoldAnyOrder(step: (real, NodeId) -> real, s: set<NodeId>, p: real, x: NodeId)
    requires Commuting(step) && x in s
    ensures Fold(step, s, p) == Fold(step, s - {x}, step(p, x))
    decreases s
  {
    var k := SomeElement(s);
    if k != x {
      assert s - {k} - {x} == s - {x} - {k};
      FoldAnyOrder(step, s - {k}, step(p, k), x);
      FoldAnyOrder(step, s - {x}, step(p, x), k);
    }
  }

  ghost function Product(f: NodeId -> real, s: set<NodeId>): real
    decreases s
  {
    if s == {} then 1.0
    else
      var x := SomeElement(s);
      f(x) * Product(f, s - {x})
  }

  /** Steps that scale the distance to 1 by a factor each, scale it by the product of the factors. */
  lemma {:induction false} FoldIsProduct(step: (real, NodeId) -> real, f: NodeId -> real, s: set<NodeId>, p: real)
    requires forall q, x {:trigger step(q, x)} :: x in s ==> 1.0 - step(q, x) == (1.0 - q) * f(x)
    ensures 1.0 - Fold(step, s, p) == (1.0 - p) * Product(f, s)
    decreases s
  {
    if s != {} {
      var x := SomeElement(s);
      FoldIsProduct(step, f, s - {x}, step(p, x));
      Chain(1.0 - Fold(step, s, p), 1.0 - step(p, x), Product(f, s - {x}), 1.0 - p, f(x), Product(f, s));
    }
  }

  lemma Chain(a: real, b: real, c: real, d: real, e: real, g: real)
    requires a == b * c && b == d * e && g == e * c
    ensures a == d * g
  {
    Reassociate(d, e, c);
  }

  // ---------------------------------------------------------------- aging

  function Pow(base: real, n: nat): real {
    if n == 0 then 1.0 else base * Pow(base, n - 1)
  }

  lemma {:induction false} PowAdd(base: real, a: nat, b: nat)
    ensures Pow(base, a + b) == Pow(base, a) * Pow(base, b)
  {
    if a > 0 {
      PowAdd(base, a - 1, b);
      assert Pow(base, a + b) == base * Pow(base, a - 1 + b);
      assert base * (Pow(base, a - 1) * Pow(base, b)) == (base * Pow(base, a - 1)) * Pow(base, b);
    }
  }

  lemma {:induction false} GammaPow(n: nat)
    ensures 0.0 < Pow(GAMMA, n) <= 1.0
  {
    if n > 0 {
      GammaPow(n - 1);
    }
  }

  /** The decay of one predictability over `units` time units, with its floor. */
  function Aged(p: real, units: int): real {
    if units <= 0 then p
    else
      var q := p * Pow(GAMMA, units);
      if q < FLOOR then 0.0 else q
  }

  /** The decay one unit at a time, as the loop would do it: scale, and drop what falls below the floor. */
  function AgedByLoop(p: real, units: nat): real {
    if units == 0 then p
    else
      var q := AgedByLoop(p, units - 1) * GAMMA;
      if q < FLOOR then 0.0 else q
  }

  lemma AgedCompose(p: real, a: nat, b: nat)
    ensures Aged(Aged(p, a), b) == Aged(p, a + b)
  {
    PowAdd(GAMMA, a, b);
    GammaPow(a);
    GammaPow(b);
    var pa, pb := Pow(GAMMA, a), Pow(GAMMA, b);
    assert p * (pa * pb) == (p * pa) * pb;
    if a > 0 && b > 0 && p * pa < FLOOR {
      ScaleDown(p * pa, pb);
    }
  }

  lemma ScaleDown(x: real, k: real)
    requires 0.0 < k <= 1.0 && x < FLOOR
    ensures x * k < FLOOR
  {
    if x >= 0.0 {
      assert x * k <= x * 1.0;
    } else {
      assert x * k <= 0.0;
    }
  }

  /** The closed form with a power is the per-unit loop, floor included. */
  lemma {:induction false} FastAgingRefinesLoop(p: real, units: nat)
    ensures Aged(p, units) == AgedByLoop(p, units)
  {
    if units > 0 {
      FastAgingRefinesLoop(p, units - 1);
      AgedCompose(p, units - 1, 1);
      AgedOnce(AgedByLoop(p, units - 1));
    }
  }

  lemma AgedOnce(p: real)
    ensures Aged(p, 1) == if p * GAMMA < FLOOR then 0.0 else p * GAMMA
  {
    assert Pow(GAMMA, 1) == GAMMA * Pow(GAMMA, 0);
  }

  lemma ScaledBelow(p: real, k: real, bound: real)
    requires 0.0 < p && k <= bound < 1.0
    ensures p * k <= p * bound < p
  {
    MulMonotone(k, bound, p);
    assert (1.0 - bound) * p > 0.0;
  }

  lemma PowOne(base: real)
    ensures Pow(base, 1) == base
  {
    assert Pow(base, 1) == base * Pow(base, 0);
  }

  /** Any silence costs something. */
  lemma AgedDecreases(p: real, units: int)
    requires 0.0 < p && 0 < units
    ensures Aged(p, units) < p
  {
    PowAdd(GAMMA, 1, units - 1);
    PowOne(GAMMA);
    GammaPow(units - 1);
    hide Pow;
    MulMonotone(Pow(GAMMA, units - 1), 1.0, GAMMA);
    ScaledBelow(p, Pow(GAMMA, units), GAMMA);
  }

  /** A longer silence never costs less. */
  lemma AgedAntitone(p: real, units: int, more: int)
    requires 0.0 <= p && 0 <= units <= more
    ensures Aged(p, more) <= Aged(p, units)
  {
    AgedBounds(p, units);
    AgedCompose(p, units, more - units);
    AgedBounds(Aged(p, units), more - units);
  }

  /** Twice the units square the factor. */
  lemma PowDoubles(n: nat, bound: real, square: real)
    requires Pow(GAMMA, n) <= bound && bound * bound <= square
    ensures Pow(GAMMA, 2 * n) <= square
  {
    PowAdd(GAMMA, n, n);
    GammaPow(n);
    var k := Pow(GAMMA, n);
    MulMonotone(k, bound, k);
    MulMonotone(k, bound, bound);
  }

  lemma GammaVanishes()
    ensures Pow(GAMMA, 2048) < FLOOR
  {
    hide Pow;
    PowOne(GAMMA);
    PowDoubles(1, 0.98, 0.9604);
    PowDoubles(2, 0.9604, 0.9224);
    PowDoubles(4, 0.9224, 0.851);
    PowDoubles(8, 0.851, 0.7243);
    PowDoubles(16, 0.7243, 0.525);
    PowDoubles(32, 0.525, 0.276);
    PowDoubles(64, 0.276, 0.0762);
    PowDoubles(128, 0.0762, 0.0059);
    PowDoubles(256, 0.0059, 0.000035);
    PowDoubles(512, 0.000035, 0.0000000013);
    PowDoubles(1024, 0.0000000013, 0.0000000001);
  }

  /** After 2048 units every predictability is forgotten. */
  lemma AgedForgets(p: real, units: int)
    requires 0.0 <= p <= 1.0 && units >= 2048
    ensures Aged(p, units) == 0.0
  {
    hide Pow;
    GammaVanishes();
    GammaPow(2048);
    var k := Pow(GAMMA, 2048);
    assert k < FLOOR;
    MulMonotone(p, 1.0, k);
    assert p * k < FLOOR;
    assert Aged(p, 2048) == 0.0;
    AgedAntitone(p, 2048, units);
    AgedBounds(p, units);
  }

  lemma AgedBounds(p: real, units: int)
    requires 0.0 <= p
    ensures 0.0 <= Aged(p, units) <= p
  {
    if units > 0 {
      GammaPow(units);
      assert p * Pow(GAMMA, units) <= p * 1.0;
    }
  }

  // ------------------------------------------------- encounter and transit

  function TransitGain(pACold: real, pAB: real, pBC: real): real {
    (1.0 - pACold) * pAB * pBC * BETA
  }

  /** The factor by which one entry of the met peer's table shrinks the distance to certainty. */
  function Damp(pAB: real, skip: Option<NodeId>, id: NodeId, other: EncounterStat): real {
    if Some(id) == skip || other.p <= 0.0 then 1.0 else 1.0 - pAB * other.p * BETA
  }

  /** The effect of that entry on the predictability. */
  function Transit(pAB: real, skip: Option<NodeId>, table: Table): (real, NodeId) -> real {
    (p: real, id: NodeId) => if id in table then Closer(p, Damp(pAB, skip, id, table[id])) else p
  }

  /** Certainty at a distance scaled by d. */
  function Closer(p: real, d: real): real {
    1.0 - (1.0 - p) * d
  }

  lemma TransitCommutes(pAB: real, skip: Option<NodeId>, table: Table)
    ensures Commuting(Transit(pAB, skip, table))
  {
    hide Closer, Damp;
    var step := Transit(pAB, skip, table);
    forall p, x, y
      ensures step(step(p, x), y) == step(step(p, y), x)
    {
      if x in table && y in table {
        ScalingsCommute(p, Damp(pAB, skip, x, table[x]), Damp(pAB, skip, y, table[y]));
      }
    }
  }

  lemma ScalingsCommute(p: real, u: real, v: real)
    ensures Closer(Closer(p, u), v) == Closer(Closer(p, v), u)
  {
    var q := 1.0 - p;
    ScaleTwice(q, u, v, 1.0 - (1.0 - q * u));
    ScaleTwice(q, v, u, 1.0 - (1.0 - q * v));
    Commute(u, v, q);
  }

  lemma ScaleTwice(q: real, u: real, v: real, a: real)
    requires a == q * u
    ensures a * v == q * (u * v)
  {
    Reassociate(q, u, v);
  }

  lemma Commute(u: real, v: real, q: real)
    ensures q * (u * v) == q * (v * u)
  {
  }

  /** One entry of the table moves the predictability up by the transit gain, and not past certainty. */
  lemma TransitIsGain(p: real, pAB: real, skip: Option<NodeId>, table: Table, id: NodeId)
    requires 0.0 <= p <= 1.0 && 0.0 <= pAB <= 1.0 && InUnit(table) && id in table
    ensures
      var after := Transit(pAB, skip, table)(p, id);
      && after == (if Some(id) == skip || table[id].p <= 0.0 then p else p + TransitGain(p, pAB, table[id].p))
      && p <= after <= 1.0
      && (p < 1.0 ==> after < 1.0)
  {
    UnitProduct(pAB, table[id].p);
    GainIsDamping(p, pAB, table[id].p);
    UnitProduct(1.0 - p, Damp(pAB, skip, id, table[id]));
  }

  lemma GainIsDamping(p: real, pAB: real, pBC: real)
    ensures 1.0 - (1.0 - p) * (1.0 - pAB * pBC * BETA) == p + TransitGain(p, pAB, pBC)
  {
    Reassociate(1.0 - p, pAB, pBC);
    Reassociate(1.0 - p, pAB * pBC, BETA);
    Distribute(1.0 - p, pAB * pBC * BETA);
  }

  lemma Distribute(q: real, c: real)
    ensures q * (1.0 - c) == q - q * c
  {
  }

  lemma {:induction false} TransitFoldBounds(pAB: real, skip: Option<NodeId>, table: Table, s: set<NodeId>, p: real)
    requires 0.0 <= p <= 1.0 && 0.0 <= pAB <= 1.0 && InUnit(table) && s <= table.Keys
    ensures p <= Fold(Transit(pAB, skip, table), s, p) <= 1.0
    ensures p < 1.0 ==> Fold(Transit(pAB, skip, table), s, p) < 1.0
    decreases s
  {
    if s != {} {
      var x := SomeElement(s);
      TransitIsGain(p, pAB, skip, table, x);
      TransitFoldBounds(pAB, skip, table, s - {x}, Transit(pAB, skip, table)(p, x));
    }
  }

  function Dampings(pAB: real, skip: Option<NodeId>, table: Table): NodeId -> real {
    (id: NodeId) => if id in table then Damp(pAB, skip, id, table[id]) else 1.0
  }

  function Met(p: real): real {
    p + (1.0 - p) * P_INIT
  }

  /** The whole update for a meeting: the encounter itself, then the met peer's table. */
  ghost function Encountered(s: EncounterStat, now: int, peerStats: Table): EncounterStat {
    var pAB := Met(s.p);
    EncounterStat(s.peer, now, s.encounters + 1, Fold(Transit(pAB, s.peer, peerStats), peerStats.Keys, pAB))
  }

  /** A meeting never lowers a predictability, keeps it a probability, and keeps it below
      certainty when it starts there. */
  lemma EncounteredBounds(s: EncounterStat, now: int, peerStats: Table)
    requires 0.0 <= s.p <= 1.0 && InUnit(peerStats)
    ensures s.p <= Encountered(s, now, peerStats).p <= 1.0
    ensures s.p < 1.0 ==> Encountered(s, now, peerStats).p < 1.0
  {
    var pAB := Met(s.p);
    TransitFoldBounds(pAB, s.peer, peerStats, peerStats.Keys, pAB);
  }

  /** In closed form a meeting multiplies the distance to certainty by 1 - P_INIT and then by one
      factor per entry of the peer's table: the order of the entries cannot matter. */
  lemma EncounteredClosedForm(s: EncounterStat, now: int, peerStats: Table)
    ensures 1.0 - Encountered(s, now, peerStats).p
              == ((1.0 - s.p) * (1.0 - P_INIT)) * Product(Dampings(Met(s.p), s.peer, peerStats), peerStats.Keys)
  {
    var pAB := Met(s.p);
    assert 1.0 - pAB == (1.0 - s.p) * (1.0 - P_INIT);
    FoldIsProduct(Transit(pAB, s.peer, peerStats), Dampings(pAB, s.peer, peerStats), peerStats.Keys, pAB);
  }

  /** An addressable encounter record, as the pointer-receiver methods see it. */
  class StatCell {
    var peer: Option<NodeId>
    var lastSeen: int
    var encounters: int
    var predictability: real

    constructor (s: EncounterStat)
      ensures Value() == s
    {
      peer, lastSeen, encounters, predictability := s.peer, s.lastSeen, s.encounters, s.p;
    }

    function Value(): EncounterStat
      reads this
    {
      EncounterStat(peer, lastSeen, encounters, predictability)
    }

    method UpdatePredictabilityOnEncounter()
      modifies this`predictability
      ensures predictability == Met(old(predictability))
      ensures 1.0 - predictability == (1.0 - old(predictability)) * (1.0 - P_INIT)
    {
      predictability := predictability + (1.0 - predictability) * P_INIT;
    }

    method AgePredictability(units: int)
      modifies this`predictability
      ensures predictability == Aged(old(predictability), units)
    {
      if units <= 0 {
        return;
      }
      predictability := predictability * Pow(GAMMA, units);
      if predictability < FLOOR {
        predictability := 0.0;
      }
    }

    /** The loop visits the peer's table in an arbitrary order; the outcome does not depend on it,
        and the cap at MAX_PREDICT never takes effect. */
    method RecordEncounter(now: int, peerStats: Table)
      modifies this
      ensures 0.0 <= old(predictability) <= 1.0 && InUnit(peerStats) ==>
                Value() == Encountered(old(Value()), now, peerStats)
      ensures peer == old(peer) && lastSeen == now && encounters == old(encounters) + 1
    {
      ghost var sound := 0.0 <= predictability <= 1.0 && InUnit(peerStats);
      encounters := encounters + 1;
      lastSeen := now;
      UpdatePredictabilityOnEncounter();
      var pAB := predictability;
      var remaining := peerStats.Keys;
      ghost var step := Transit(pAB, peer, peerStats);
      TransitCommutes(pAB, peer, peerStats);
      while remaining != {}
        invariant remaining <= peerStats.Keys
        invariant peer == old(peer) && lastSeen == now && encounters == old(encounters) + 1
        invariant sound ==> 0.0 <= predictability <= 1.0
        invariant sound ==> Fold(step, remaining, predictability) == Fold(step, peerStats.Keys, pAB)
        decreases |remaining|
      {
        var id :| id in remaining;
        var other := peerStats[id];
        if sound {
          TransitIsGain(predictability, pAB, peer, peerStats, id);
          FoldAnyOrder(step, remaining, predictability, id);
        }
        if Some(id) != peer && other.p > 0.0 {
          predictability := predictability + TransitGain(predictability, pAB, other.p);
          if predictability > MAX_PREDICT {
            predictability := MAX_PREDICT;
          }
        }
        remaining := remaining - {id};
      }
    }

    function Aging(now: int): int
      reads this
    {
      if now <= lastSeen then 0 else (now - lastSeen) / AGE_UNITS
    }
  }

  // ------------------------------------------------------------ forwarders

  datatype Action = Deliver | Spray | Handoff | Keep | Dup

  datatype Forwarder = Epidemic | SprayAndWait(budget: int)

  /** The action when a carrier of a message for `dst` meets `peer`. */
  function Decide<Addr(==)>(f: Forwarder, dst: Addr, copiesMade: int, peer: Addr,
                            myP: real, peerP: real, peerHoldsCopy: bool): (action: Action)
    ensures action.Deliver? <==> peer == dst
    ensures action.Dup? <==> peer != dst && peerHoldsCopy
    ensures action.Spray? <==> peer != dst && !peerHoldsCopy && (f.Epidemic? || copiesMade < f.budget)
    ensures action.Handoff? <==>
      peer != dst && !peerHoldsCopy && f.SprayAndWait? && copiesMade >= f.budget && peerP > myP
  {
    match f
    case SprayAndWait(budget) =>
      if peer == dst then Deliver
      else if peerHoldsCopy then Dup
      else if copiesMade < budget then Spray
      else if peerP > myP then Handoff
      else Keep
    case Epidemic =>
      if peer == dst then Deliver
      else if peerHoldsCopy then Dup
      else Spray
  }
}
