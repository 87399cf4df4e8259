/** Whole runs: when messages are injected, and what the outcome counts. */
module Scenario {
  import opened Prelude
  import opened Routing
  import opened MessageRun
  import opened MessageTheorems
  import opened IdOrder

  /** A scenario without its forwarder, so that forwarders can be compared on it. */
  datatype Scenario = Scenario(nodes: int, messages: int, injectionFrom: int, injectionTo: int, ttl: int)

  datatype Config = Config(scenario: Scenario, forwarder: Option<Forwarder>)

  datatype Outcome = Outcome(delivered: nat, total: nat, latency: seq<int>, hops: seq<int>, copies: int)

  // --------------------------------------------------------------- injection

  function Stride(sc: Scenario): (stride: int)
    requires sc.injectionFrom < sc.injectionTo
    ensures stride >= 1
  {
    if sc.messages > 1 then Max(1, (sc.injectionTo - sc.injectionFrom) / (sc.messages - 1)) else 1
  }

  predicate Injects(sc: Scenario, injected: nat, tick: nat)
    requires sc.injectionFrom < sc.injectionTo
  {
    injected < sc.messages && tick >= sc.injectionFrom && (tick - sc.injectionFrom) % Stride(sc) == 0
  }

  predicate Runnable(sc: Scenario, plan: seq<TickPlan>) {
    sc.nodes >= 2 && sc.injectionFrom < sc.injectionTo && ValidPlan(sc.nodes, plan)
  }

  /** The messages injected before tick `now`, in order. */
  function Births(sc: Scenario, plan: seq<TickPlan>, now: nat): seq<Track>
    requires Runnable(sc, plan) && now <= |plan|
  {
    if now == 0 then []
    else
      var earlier := Births(sc, plan, now - 1);
      if Injects(sc, |earlier|, now - 1) then
        var (src, dst) := PickPair(sc.nodes, plan[now - 1].srcDraw, plan[now - 1].dstDraw);
        earlier + [Born(src, dst, now - 1, sc.ttl)]
      else earlier
  }

  /** The first tick at which an injection can happen. */
  function FirstInjection(sc: Scenario): nat
    requires sc.injectionFrom < sc.injectionTo
  {
    if sc.injectionFrom >= 0 then sc.injectionFrom else sc.injectionFrom % Stride(sc)
  }

  /** The tick of the i-th injection. */
  function InjectionTime(sc: Scenario, i: int): int
    requires sc.injectionFrom < sc.injectionTo
  {
    FirstInjection(sc) + i * Stride(sc)
  }

  lemma MultipleSign(k: int, s: int)
    requires s > 0
    ensures k >= 1 ==> k * s >= s
    ensures k <= -1 ==> k * s <= -s
  {
    if k >= 1 {
      assert (k - 1) * s >= 0;
    } else if k <= -1 {
      assert (-1 - k) * s >= 0;
    }
  }

  lemma DivUnique(x: int, q: int, r: int, s: int)
    requires s > 0 && x == q * s + r && 0 <= r < s
    ensures x / s == q && x % s == r
  {
    var k := x / s - q;
    assert x == (x / s) * s + x % s;
    assert k * s == r - x % s;
    MultipleSign(k, s);
  }

  lemma MultiplesAdd(a: int, b: int, s: int)
    ensures (a + b) * s == a * s + b * s
  {
  }

  /** How far the first injection lies behind the start of the window, in strides. */
  function Skipped(sc: Scenario): int
    requires sc.injectionFrom < sc.injectionTo
  {
    if sc.injectionFrom >= 0 then 0 else -(sc.injectionFrom / Stride(sc))
  }

  /** The injection times are the points of the stride's grid from the first one that is a tick. */
  lemma GridPoint(sc: Scenario, k: int)
    requires sc.injectionFrom < sc.injectionTo
    ensures InjectionTime(sc, k) == sc.injectionFrom + (Skipped(sc) + k) * Stride(sc)
    ensures FirstInjection(sc) - Stride(sc) < Max(sc.injectionFrom, 0)
  {
    var s, from := Stride(sc), sc.injectionFrom;
    MultiplesAdd(Skipped(sc), k, s);
    assert from == (from / s) * s + from % s;
    MultiplesAdd(from / s, -(from / s), s);
  }

  lemma InjectionGrid(sc: Scenario, tick: nat, k: nat)
    requires sc.injectionFrom < sc.injectionTo
    requires tick <= InjectionTime(sc, k) && (k > 0 ==> InjectionTime(sc, k - 1) < tick)
    ensures (tick >= sc.injectionFrom && (tick - sc.injectionFrom) % Stride(sc) == 0) <==> tick == InjectionTime(sc, k)
  {
    hide Stride, Skipped;
    var s, from, j := Stride(sc), sc.injectionFrom, Skipped(sc) + k;
    GridPoint(sc, k);
    GridPoint(sc, k - 1);
    GridPoint(sc, 0);
    hide InjectionTime, FirstInjection;
    assert InjectionTime(sc, 0) == FirstInjection(sc) by { FirstIsZeroth(sc); }
    assert j * s == (j - 1) * s + s by { MultiplesAdd(j - 1, 1, s); }
    if tick == InjectionTime(sc, k) {
      assert tick >= from by { FirstInWindow(sc, k); }
      DivUnique(tick - from, j, 0, s);
    } else if tick >= from {
      assert (Skipped(sc) + (k - 1)) * s == (j - 1) * s;
      DivUnique(tick - from, j - 1, tick - from - (j - 1) * s, s);
    }
  }

  lemma FirstIsZeroth(sc: Scenario)
    requires sc.injectionFrom < sc.injectionTo
    ensures InjectionTime(sc, 0) == FirstInjection(sc)
  {
  }

  lemma FirstInWindow(sc: Scenario, k: nat)
    requires sc.injectionFrom < sc.injectionTo
    ensures InjectionTime(sc, k) >= sc.injectionFrom
  {
    MultipleSign(k, Stride(sc));
  }

  /** The i-th message is injected at FirstInjection + i * Stride, and none is left out meanwhile. */
  lemma {:induction false} InjectionTimes(sc: Scenario, plan: seq<TickPlan>, now: nat)
    requires Runnable(sc, plan) && now <= |plan|
    ensures
      var births := Births(sc, plan, now);
      && |births| <= Max(sc.messages, 0)
      && (forall i :: 0 <= i < |births| ==> births[i].createdAt == InjectionTime(sc, i) < now)
      && (|births| < sc.messages ==> now <= InjectionTime(sc, |births|))
  {
    if now > 0 {
      InjectionTimes(sc, plan, now - 1);
      var k := |Births(sc, plan, now - 1)|;
      if k < sc.messages {
        assert k > 0 ==> Births(sc, plan, now - 1)[k - 1].createdAt == InjectionTime(sc, k - 1);
        InjectionGrid(sc, now - 1, k);
        NextInjectionLater(sc, k);
      }
    }
  }

  lemma NextInjectionLater(sc: Scenario, k: nat)
    requires sc.injectionFrom < sc.injectionTo
    ensures InjectionTime(sc, k + 1) == InjectionTime(sc, k) + Stride(sc)
  {
    assert (k + 1) * Stride(sc) == k * Stride(sc) + Stride(sc);
  }

  lemma InjectionTimeMonotone(sc: Scenario, i: int, j: int)
    requires sc.injectionFrom < sc.injectionTo && i <= j
    ensures InjectionTime(sc, i) <= InjectionTime(sc, j)
  {
    assert (j - i) * Stride(sc) >= 0;
    assert j * Stride(sc) == i * Stride(sc) + (j - i) * Stride(sc);
  }

  /** A run long enough for the last injection injects exactly the configured messages. */
  lemma AllMessagesInjected(sc: Scenario, plan: seq<TickPlan>)
    requires Runnable(sc, plan) && sc.messages >= 1 && InjectionTime(sc, sc.messages - 1) < |plan|
    ensures |Births(sc, plan, |plan|)| == sc.messages
  {
    InjectionTimes(sc, plan, |plan|);
    var k := |Births(sc, plan, |plan|)|;
    if k < sc.messages {
      InjectionTimeMonotone(sc, k, sc.messages - 1);
    }
  }

  lemma LastInjection(sc: Scenario)
    requires 0 <= sc.injectionFrom < sc.injectionTo && sc.messages >= 1
    ensures InjectionTime(sc, sc.messages - 1) <= sc.injectionTo <==>
            sc.messages <= sc.injectionTo - sc.injectionFrom + 1
  {
    var w, m := sc.injectionTo - sc.injectionFrom, sc.messages - 1;
    if m >= 1 {
      var s := w / m;
      assert s * m <= w;
      if m <= w {
        assert w == s * m + w % m;
        assert s >= 1;
        assert m * Stride(sc) == s * m;
      } else {
        assert s == 0;
        assert m * Stride(sc) == m;
      }
    }
  }

  /** The injection window is documented as inclusive of its last tick. A run long enough respects it
      exactly when the last injection falls within it; when the window does not begin before the run, that
      is, when there are no more messages than ticks in it. */
  lemma WindowRespectedExactly(sc: Scenario, plan: seq<TickPlan>)
    requires Runnable(sc, plan) && sc.messages >= 1 && InjectionTime(sc, sc.messages - 1) < |plan|
    ensures (forall b :: b in Births(sc, plan, |plan|) ==> sc.injectionFrom <= b.createdAt <= sc.injectionTo) <==>
            InjectionTime(sc, sc.messages - 1) <= sc.injectionTo
    ensures 0 <= sc.injectionFrom ==>
              (InjectionTime(sc, sc.messages - 1) <= sc.injectionTo <==>
               sc.messages <= sc.injectionTo - sc.injectionFrom + 1)
  {
    hide Births;
    var births := Births(sc, plan, |plan|);
    AllMessagesInjected(sc, plan);
    InjectionTimes(sc, plan, |plan|);
    if 0 <= sc.injectionFrom {
      LastInjection(sc);
    }
    var last := births[sc.messages - 1];
    assert last in births && last.createdAt == InjectionTime(sc, sc.messages - 1);
    forall i | 0 <= i < |births|
      ensures sc.injectionFrom <= births[i].createdAt <= last.createdAt
    {
      InjectionTimeMonotone(sc, 0, i);
      InjectionTimeMonotone(sc, i, sc.messages - 1);
    }
  }

  /** The largest spacing at which all messages but the first fit in the window; one tick if none does. */
  predicate Fits(sc: Scenario, d: int) {
    var window, gaps := sc.injectionTo - sc.injectionFrom, sc.messages - 1;
    d >= 1 && if gaps <= window then d * gaps <= window < (d + 1) * gaps else d == 1
  }

  /** The first injection: at the start of the window, or, if that lies before the run, at the first tick a
      whole number of spacings later. */
  predicate Starts(sc: Scenario, d: int, tick: int)
    requires d >= 1
  {
    if sc.injectionFrom >= 0 then tick == sc.injectionFrom
    else 0 <= tick < d && (tick - sc.injectionFrom) % d == 0
  }

  predicate Spaced(births: seq<Track>, d: int) {
    forall i :: 0 < i < |births| ==> births[i].createdAt - births[i - 1].createdAt == d
  }

  /** Messages are injected at even distances, the largest that fits the window, from its start. */
  lemma EvenlySpread(sc: Scenario, plan: seq<TickPlan>, now: nat)
    requires Runnable(sc, plan) && now <= |plan| && sc.messages >= 2
    ensures
      var births := Births(sc, plan, now);
      exists d :: Fits(sc, d) && Spaced(births, d) && (births != [] ==> Starts(sc, d, births[0].createdAt))
  {
    hide Births, InjectionTime, Stride, FirstInjection;
    var births, d := Births(sc, plan, now), Stride(sc);
    InjectionTimes(sc, plan, now);
    StrideFits(sc);
    StartsFirst(sc);
    FirstIsZeroth(sc);
    forall i | 0 < i < |births|
      ensures births[i].createdAt - births[i - 1].createdAt == d
    {
      NextInjectionLater(sc, i - 1);
    }
    assert Spaced(births, d);
  }

  /** A single message is injected at the start of the window, or at once if that lies before the run. */
  lemma SingleBirth(sc: Scenario, plan: seq<TickPlan>, now: nat)
    requires Runnable(sc, plan) && now <= |plan| && sc.messages == 1
    ensures
      var births, first := Births(sc, plan, now), Max(sc.injectionFrom, 0);
      |births| == (if first < now then 1 else 0) && forall b :: b in births ==> b.createdAt == first
  {
    hide Births;
    InjectionTimes(sc, plan, now);
    assert Stride(sc) == 1;
    FirstIsZeroth(sc);
  }

  lemma StrideFits(sc: Scenario)
    requires sc.injectionFrom < sc.injectionTo && sc.messages >= 2
    ensures Fits(sc, Stride(sc))
  {
    var window, gaps := sc.injectionTo - sc.injectionFrom, sc.messages - 1;
    var q := window / gaps;
    assert window == q * gaps + window % gaps;
    MultiplesAdd(q, 1, gaps);
    if gaps <= window {
      QuotientPositive(window, gaps);
    } else {
      QuotientZero(window, gaps);
    }
  }

  lemma QuotientPositive(x: int, s: int)
    requires 0 < s <= x
    ensures x / s >= 1
  {
    assert x == (x / s) * s + x % s;
    MultipleSign(x / s, s);
  }

  lemma QuotientZero(x: int, s: int)
    requires 0 <= x < s
    ensures x / s == 0
  {
    DivUnique(x, 0, x, s);
  }

  lemma StartsFirst(sc: Scenario)
    requires sc.injectionFrom < sc.injectionTo
    ensures Starts(sc, Stride(sc), FirstInjection(sc))
  {
    var s, from := Stride(sc), sc.injectionFrom;
    if from < 0 {
      assert from == (from / s) * s + from % s;
      DivUnique(from % s - from, -(from / s), 0, s);
    }
  }

  /** With room for all messages, the last one is injected within the last messages - 1 ticks of the window. */
  lemma LastAtTheEnd(sc: Scenario, plan: seq<TickPlan>)
    requires Runnable(sc, plan) && 0 <= sc.injectionFrom && |plan| > sc.injectionTo
    requires 2 <= sc.messages <= sc.injectionTo - sc.injectionFrom + 1
    ensures
      var births := Births(sc, plan, |plan|);
      |births| == sc.messages
      && sc.injectionTo - (sc.messages - 1) < births[sc.messages - 1].createdAt <= sc.injectionTo
  {
    hide Births, Stride;
    StrideFits(sc);
    MultiplesAdd(Stride(sc), 1, sc.messages - 1);
    assert (sc.messages - 1) * Stride(sc) == Stride(sc) * (sc.messages - 1);
    AllMessagesInjected(sc, plan);
    InjectionTimes(sc, plan, |plan|);
  }

  /** A message goes from the node drawn at its tick to the one drawn among the others. */
  lemma {:induction false} BirthsDrawn(sc: Scenario, plan: seq<TickPlan>, now: nat)
    requires Runnable(sc, plan) && now <= |plan|
    ensures
      forall b :: b in Births(sc, plan, now) ==>
        && 0 <= b.createdAt < now && b.src == plan[b.createdAt].srcDraw
        && var d := plan[b.createdAt].dstDraw; b.dst == if d < b.src then d else d + 1
  {
    if now > 0 {
      BirthsDrawn(sc, plan, now - 1);
    }
  }

  /** Five messages in a window of two ticks: the last three are injected after it has closed. */
  lemma WindowOverrun(plan: seq<TickPlan>)
    requires ValidPlan(2, plan) && |plan| >= 6
    ensures
      var sc := Scenario(2, 5, 1, 2, 10);
      var births := Births(sc, plan, |plan|);
      |births| == 5 && births[2].createdAt == 3 && births[3].createdAt == 4 && births[4].createdAt == 5
  {
    hide Births;
    var sc := Scenario(2, 5, 1, 2, 10);
    assert Stride(sc) == 1;
    AllMessagesInjected(sc, plan);
    InjectionTimes(sc, plan, |plan|);
  }

  lemma {:induction false} BirthsInjectable(sc: Scenario, plan: seq<TickPlan>, now: nat)
    requires Runnable(sc, plan) && now <= |plan|
    ensures
      forall b :: b in Births(sc, plan, now) ==>
        && b.src < sc.nodes && b.dst < sc.nodes && b.src != b.dst && b.ttl == sc.ttl
        && b == Born(b.src, b.dst, b.createdAt, b.ttl) && 0 <= b.createdAt < now
  {
    if now > 0 {
      BirthsInjectable(sc, plan, now - 1);
    }
  }

  // -------------------------------------------------------------- accounting

  /** The accounting at the end of a run, message by message in the order given. */
  function Account(tracks: seq<Track>): Outcome {
    if tracks == [] then Outcome(0, 0, [], [], 0)
    else
      var o, t := Account(tracks[..|tracks| - 1]), tracks[|tracks| - 1];
      var d := if t.delivery.Some? then t.delivery.value else Delivery(0, 0);
      if t.deliveredAt > 0 then
        Outcome(o.delivered + 1, o.total + 1, o.latency + [d.latency], o.hops + [d.hops], o.copies + t.copies)
      else o.(total := o.total + 1, copies := o.copies + t.copies)
  }

  /** The messages injected before tick `now`, as they are when it begins. */
  ghost function TracksAt(f: Forwarder, sc: Scenario, plan: seq<TickPlan>, now: nat): (tracks: seq<Track>)
    requires Runnable(sc, plan) && now <= |plan|
    ensures |tracks| == |Births(sc, plan, now)|
  {
    BirthsInjectable(sc, plan, now);
    var births := Births(sc, plan, now);
    seq(|births|, i requires 0 <= i < |births| => TrackAt(f, sc.nodes, plan, births[i], now))
  }

  /** One tick of the whole: the injection, then every message's own tick. */
  lemma TracksNext(f: Forwarder, sc: Scenario, plan: seq<TickPlan>, tick: nat)
    requires Runnable(sc, plan) && tick < |plan|
    ensures
      var before, after := TracksAt(f, sc, plan, tick), TracksAt(f, sc, plan, tick + 1);
      && |after| == |before| + (if Injects(sc, |before|, tick) then 1 else 0)
      && (forall m :: 0 <= m < |before| ==> after[m] == Tick(f, sc.nodes, plan, before[m], tick))
      && (Injects(sc, |before|, tick) ==>
            var (src, dst) := PickPair(sc.nodes, plan[tick].srcDraw, plan[tick].dstDraw);
            after[|before|] == Tick(f, sc.nodes, plan, Born(src, dst, tick, sc.ttl), tick))
  {
    hide Tick;
    BirthsInjectable(sc, plan, tick);
    var before := Births(sc, plan, tick);
    forall m | 0 <= m < |before|
      ensures TracksAt(f, sc, plan, tick + 1)[m] == Tick(f, sc.nodes, plan, TracksAt(f, sc, plan, tick)[m], tick)
    {
      assert before[m] in before;
    }
    if Injects(sc, |before|, tick) {
      var (src, dst) := PickPair(sc.nodes, plan[tick].srcDraw, plan[tick].dstDraw);
      assert TrackAt(f, sc.nodes, plan, Born(src, dst, tick, sc.ttl), tick) == Born(src, dst, tick, sc.ttl);
    }
  }

  ghost function OutcomeOf(f: Forwarder, sc: Scenario, plan: seq<TickPlan>): Outcome
    requires Runnable(sc, plan)
  {
    Account(InIdOrder(TracksAt(f, sc, plan, |plan|)))
  }

  lemma {:induction false} AccountCounts(tracks: seq<Track>, copiesBound: int)
    requires forall i :: 0 <= i < |tracks| ==> 1 <= tracks[i].copies <= copiesBound
    ensures
      var o := Account(tracks);
      |o.latency| == |o.hops| == o.delivered <= o.total == |tracks| <= o.copies <= o.total * copiesBound
  {
    if tracks != [] {
      AccountCounts(tracks[..|tracks| - 1], copiesBound);
      OneMore(|tracks|, copiesBound);
    }
  }

  lemma OneMore(n: int, each: int)
    ensures n * each == (n - 1) * each + each
  {
  }

  lemma {:induction false} AccountRecords(tracks: seq<Track>, latencyBound: int)
    requires forall i :: 0 <= i < |tracks| && tracks[i].deliveredAt > 0 ==>
               tracks[i].delivery.Some? && 0 <= tracks[i].delivery.value.latency <= latencyBound
    ensures forall l :: l in Account(tracks).latency ==> 0 <= l <= latencyBound
    ensures forall h :: h in Account(tracks).hops ==> 0 <= h
  {
    if tracks != [] {
      AccountRecords(tracks[..|tracks| - 1], latencyBound);
    }
  }

  /** The sum of a quantity over the messages. */
  function Sum(tracks: seq<Track>, g: Track -> int): int {
    if tracks == [] then 0 else g(tracks[0]) + Sum(tracks[1..], g)
  }

  lemma {:induction false} SumSnoc(tracks: seq<Track>, g: Track -> int)
    requires tracks != []
    ensures Sum(tracks, g) == Sum(tracks[..|tracks| - 1], g) + g(tracks[|tracks| - 1])
  {
    var k := |tracks| - 1;
    if k > 0 {
      SumSnoc(tracks[1..], g);
      assert tracks[1..][..k - 1] == tracks[..k][1..];
    }
  }

  lemma {:induction false} SumSame(tracks: seq<Track>, g: Track -> int, h: Track -> int)
    requires forall t :: t in tracks ==> g(t) == h(t)
    ensures Sum(tracks, g) == Sum(tracks, h)
  {
    if tracks != [] {
      SumSame(tracks[1..], g, h);
    }
  }

  lemma {:induction false} AccountCopies(tracks: seq<Track>)
    ensures Account(tracks).copies == Sum(tracks, (t: Track) => t.copies)
  {
    if tracks != [] {
      AccountCopies(tracks[..|tracks| - 1]);
      SumSnoc(tracks, (t: Track) => t.copies);
    }
  }

  /** What became of a message's copies: still held, taken by the destination, or swept with it. */
  function Whereabouts(now: int): Track -> int {
    (t: Track) => |t.carriers| + (if t.deliveredAt != 0 then 1 else if Swept(t, now) then t.copies else 0)
  }

  /** Every copy made in a run is still held at its end, was delivered, or was swept undelivered. */
  lemma CopiesAccountedFor(f: Forwarder, sc: Scenario, plan: seq<TickPlan>)
    requires Runnable(sc, plan) && FirstInjection(sc) >= 1
    ensures OutcomeOf(f, sc, plan).copies == Sum(InIdOrder(TracksAt(f, sc, plan, |plan|)), Whereabouts(|plan|))
  {
    hide Account, TrackAt, Sum;
    var tracks := TracksAt(f, sc, plan, |plan|);
    TracksSound(f, sc, plan);
    AccountCopies(InIdOrder(tracks));
    SumSame(InIdOrder(tracks), (t: Track) => t.copies, Whereabouts(|plan|));
  }

  lemma TracksSound(f: Forwarder, sc: Scenario, plan: seq<TickPlan>)
    requires Runnable(sc, plan) && FirstInjection(sc) >= 1
    ensures forall t :: t in TracksAt(f, sc, plan, |plan|) ==> Sound(f, t, sc.nodes, |plan|) && t.ttl == sc.ttl
  {
    hide TrackAt;
    var births, tracks := Births(sc, plan, |plan|), TracksAt(f, sc, plan, |plan|);
    BirthsAfterZero(sc, plan);
    forall i | 0 <= i < |tracks|
      ensures Sound(f, tracks[i], sc.nodes, |plan|) && tracks[i].ttl == sc.ttl
    {
      RunSound(f, sc.nodes, plan, births[i], |plan|);
      TtlFixed(f, sc.nodes, plan, births[i], |plan|);
    }
  }

  /** These are the delivered messages, in order. */
  ghost predicate PicksDelivered(picks: seq<nat>, tracks: seq<Track>) {
    && (forall j, k :: 0 <= j < k < |picks| ==> picks[j] < picks[k])
    && (forall k :: 0 <= k < |picks| ==> picks[k] < |tracks|)
    && (forall i: nat :: i in picks <==> i < |tracks| && tracks[i].deliveredAt > 0)
  }

  /** Which messages a run's lists are about. */
  function Delivered(tracks: seq<Track>): (picks: seq<nat>)
    ensures PicksDelivered(picks, tracks)
  {
    if tracks == [] then []
    else
      var k := |tracks| - 1;
      var init := Delivered(tracks[..k]);
      PicksNext(init, tracks);
      if tracks[k].deliveredAt > 0 then init + [k] else init
  }

  lemma PicksNext(picks: seq<nat>, tracks: seq<Track>)
    requires tracks != [] && PicksDelivered(picks, tracks[..|tracks| - 1])
    ensures PicksDelivered(if tracks[|tracks| - 1].deliveredAt > 0 then picks + [|tracks| - 1] else picks, tracks)
  {
    var k: nat := |tracks| - 1;
    assert forall i: nat :: i in picks + [k] <==> i in picks || i == k;
    assert forall i: nat :: i < k ==> tracks[..k][i] == tracks[i];
  }

  /** Entry by entry: the ticks to the delivery, and the hops of the delivered copy. */
  predicate ListsAre(latency: seq<int>, hops: seq<int>, tracks: seq<Track>, picks: seq<nat>)
    requires forall k :: 0 <= k < |picks| ==> picks[k] < |tracks|
  {
    && |latency| == |hops| == |picks|
    && forall k :: 0 <= k < |picks| ==>
         var t := tracks[picks[k]];
         t.delivery.Some? && latency[k] == t.deliveredAt - t.createdAt && hops[k] == t.delivery.value.hops
  }

  lemma {:induction false} AccountLists(tracks: seq<Track>)
    requires forall t :: t in tracks ==> DeliveryRecorded(t)
    ensures Account(tracks).delivered == |Delivered(tracks)|
    ensures ListsAre(Account(tracks).latency, Account(tracks).hops, tracks, Delivered(tracks))
  {
    if tracks != [] {
      var k := |tracks| - 1;
      var init, o := Delivered(tracks[..k]), Account(tracks[..k]);
      assert tracks[k] in tracks && forall t :: t in tracks[..k] ==> t in tracks;
      AccountLists(tracks[..k]);
      ListsLonger(o.latency, o.hops, tracks, init);
    }
  }

  lemma ListsLonger(latency: seq<int>, hops: seq<int>, tracks: seq<Track>, picks: seq<nat>)
    requires tracks != [] && DeliveryRecorded(tracks[|tracks| - 1])
    requires forall k :: 0 <= k < |picks| ==> picks[k] < |tracks| - 1
    requires ListsAre(latency, hops, tracks[..|tracks| - 1], picks)
    ensures ListsAre(latency, hops, tracks, picks)
    ensures
      var k: nat, t := |tracks| - 1, tracks[|tracks| - 1];
      t.deliveredAt != 0 ==>
        ListsAre(latency + [t.delivery.value.latency], hops + [t.delivery.value.hops], tracks, picks + [k])
  {
    assert forall k :: 0 <= k < |picks| ==> tracks[..|tracks| - 1][picks[k]] == tracks[picks[k]];
  }

  /** The lists of a run's outcome: for each delivered message, in the order of the names, the ticks from
      its creation to its delivery and the hops of the copy that was delivered. */
  lemma OutcomeLists(f: Forwarder, sc: Scenario, plan: seq<TickPlan>)
    requires Runnable(sc, plan) && FirstInjection(sc) >= 1
    ensures
      var tracks, o := InIdOrder(TracksAt(f, sc, plan, |plan|)), OutcomeOf(f, sc, plan);
      && o.delivered == |Delivered(tracks)|
      && ListsAre(o.latency, o.hops, tracks, Delivered(tracks))
  {
    hide Account, TrackAt, Delivered, ListsAre;
    TracksSound(f, sc, plan);
    AccountLists(InIdOrder(TracksAt(f, sc, plan, |plan|)));
  }

  function CopiesBound(f: Forwarder, n: int): int {
    if f.SprayAndWait? then Min(Max(1, f.budget), n - 1) else n - 1
  }

  /** Every run whose first injection is after tick 0: what is delivered is counted once and in time, and the copies stay
      within the budget of every message. */
  lemma OutcomeSound(f: Forwarder, sc: Scenario, plan: seq<TickPlan>)
    requires Runnable(sc, plan) && FirstInjection(sc) >= 1
    ensures
      var o := OutcomeOf(f, sc, plan);
      && |o.latency| == |o.hops| == o.delivered <= o.total == |Births(sc, plan, |plan|)|
      && o.total <= o.copies <= o.total * CopiesBound(f, sc.nodes)
      && (forall l :: l in o.latency ==> 0 <= l <= Max(sc.ttl, 0))
      && (forall h :: h in o.hops ==> 0 <= h)
  {
    hide Account, TrackAt;
    var tracks := TracksAt(f, sc, plan, |plan|);
    TracksSound(f, sc, plan);
    var visited := InIdOrder(tracks);
    assert forall i :: 0 <= i < |visited| ==> visited[i] in visited;
    AccountCounts(visited, CopiesBound(f, sc.nodes));
    AccountRecords(visited, Max(sc.ttl, 0));
  }

  predicate AfterZero(sc: Scenario, births: seq<Track>, duration: nat)
    requires sc.nodes >= 0
  {
    forall i :: 0 <= i < |births| ==>
      Injectable(sc.nodes, births[i]) && births[i].createdAt < duration && births[i].ttl == sc.ttl
  }

  lemma BirthsAfterZero(sc: Scenario, plan: seq<TickPlan>)
    requires Runnable(sc, plan) && FirstInjection(sc) >= 1
    ensures AfterZero(sc, Births(sc, plan, |plan|), |plan|)
  {
    hide Births;
    BirthsInjectable(sc, plan, |plan|);
    InjectionTimes(sc, plan, |plan|);
    var births := Births(sc, plan, |plan|);
    forall i | 0 <= i < |births|
      ensures Injectable(sc.nodes, births[i]) && births[i].createdAt < |plan| && births[i].ttl == sc.ttl
    {
      assert births[i] in births;
      InjectionTimeMonotone(sc, 0, i);
    }
  }

  lemma {:induction false} MingleTtlFixed(f: Forwarder, tables: Tables, t: Track, contacts: seq<Contact>, tick: int)
    requires ValidContacts(|tables|, contacts)
    ensures Mingle(f, tables, t, contacts, tick).ttl == t.ttl
  {
    hide MingleTables;
    if contacts != [] {
      MingleTtlFixed(f, tables, t, contacts[..|contacts| - 1], tick);
    }
  }

  lemma {:induction false} TtlFixed(f: Forwarder, n: nat, plan: seq<TickPlan>, born: Track, now: nat)
    requires ValidPlan(n, plan) && 0 <= born.createdAt <= now <= |plan|
    ensures TrackAt(f, n, plan, born, now).ttl == born.ttl
    decreases now
  {
    hide Mingle, TablesAt;
    if born.createdAt < now {
      TtlFixed(f, n, plan, born, now - 1);
      MingleTtlFixed(f, TablesAt(n, plan, now - 1), TrackAt(f, n, plan, born, now - 1),
                     plan[now - 1].contacts, now - 1);
    }
  }

  lemma {:induction false} AccountMonotone(more: seq<Track>, fewer: seq<Track>)
    requires |more| == |fewer|
    requires forall i :: 0 <= i < |more| ==> fewer[i].deliveredAt > 0 ==> more[i].deliveredAt > 0
    ensures Account(fewer).delivered <= Account(more).delivered && Account(fewer).total == Account(more).total
  {
    if more != [] {
      AccountMonotone(more[..|more| - 1], fewer[..|more| - 1]);
    }
  }

  /** Two runs visit their messages in the same order. */
  lemma SamePlace(a: seq<Track>, b: seq<Track>, i: nat)
    requires |a| == |b| && i < |a|
    ensures exists k :: 0 <= k < |a| && InIdOrder(a)[i] == a[k] && InIdOrder(b)[i] == b[k]
  {
    var k := SortedIds(|a|)[i];
    assert InIdOrder(a)[i] == a[k];
  }

  /** On the same scenario and schedule no forwarder delivers more messages than flooding. */
  lemma FloodDeliversMost(f: Forwarder, sc: Scenario, plan: seq<TickPlan>)
    requires Runnable(sc, plan)
    ensures OutcomeOf(f, sc, plan).delivered <= OutcomeOf(Epidemic, sc, plan).delivered
    ensures OutcomeOf(f, sc, plan).total == OutcomeOf(Epidemic, sc, plan).total
  {
    hide Account, TrackAt;
    var births := Births(sc, plan, |plan|);
    BirthsInjectable(sc, plan, |plan|);
    forall i | 0 <= i < |births|
      ensures Dominates(TrackAt(Epidemic, sc.nodes, plan, births[i], |plan|),
                        TrackAt(f, sc.nodes, plan, births[i], |plan|))
    {
      assert births[i] in births;
      FloodOptimal(f, sc.nodes, plan, births[i], |plan|);
    }
    var flooded, other := TracksAt(Epidemic, sc, plan, |plan|), TracksAt(f, sc, plan, |plan|);
    forall i | 0 <= i < |other| && InIdOrder(other)[i].deliveredAt > 0
      ensures InIdOrder(flooded)[i].deliveredAt > 0
    {
      SamePlace(flooded, other, i);
    }
    AccountMonotone(InIdOrder(flooded), InIdOrder(other));
  }

  /** A budget of at least nodes - 1 gives exactly flooding's outcome on every schedule. */
  lemma LargeBudgetOutcome(budget: int, sc: Scenario, plan: seq<TickPlan>)
    requires Runnable(sc, plan) && FirstInjection(sc) >= 1 && budget >= sc.nodes - 1
    ensures OutcomeOf(SprayAndWait(budget), sc, plan) == OutcomeOf(Epidemic, sc, plan)
  {
    hide Account, TrackAt;
    var births := Births(sc, plan, |plan|);
    BirthsAfterZero(sc, plan);
    forall i | 0 <= i < |births|
      ensures TrackAt(SprayAndWait(budget), sc.nodes, plan, births[i], |plan|)
                == TrackAt(Epidemic, sc.nodes, plan, births[i], |plan|)
    {
      LargeBudgetIsFlooding(budget, sc.nodes, plan, births[i], |plan|);
    }
    assert TracksAt(SprayAndWait(budget), sc, plan, |plan|) == TracksAt(Epidemic, sc, plan, |plan|);
  }

  /** A large budget and flooding have the same outcome in every run whose first injection is at this tick. */
  ghost predicate OutcomesAgree(first: nat) {
    forall sc, plan, budget: int ::
      Runnable(sc, plan) && FirstInjection(sc) == first && budget >= sc.nodes - 1 ==>
        OutcomeOf(SprayAndWait(budget), sc, plan) == OutcomeOf(Epidemic, sc, plan)
  }

  /** In every such run, no forwarder makes more copies than nodes - 1 for every message. */
  ghost predicate OutcomesBounded(first: nat) {
    forall f, sc, plan ::
      Runnable(sc, plan) && FirstInjection(sc) == first ==>
        OutcomeOf(f, sc, plan).copies <= OutcomeOf(f, sc, plan).total * (sc.nodes - 1)
  }

  const LOST_SCENARIO := Scenario(3, 1, 0, 1, 5)

  /** One message, injected at tick 0 and lost there: flooding ends with three copies, a budget of two with two. */
  lemma LostOutcome(f: Forwarder)
    requires f == Epidemic || f == SprayAndWait(2)
    ensures Runnable(LOST_SCENARIO, LOST_PLAN) && FirstInjection(LOST_SCENARIO) == 0
    ensures OutcomeOf(f, LOST_SCENARIO, LOST_PLAN).copies == if f.Epidemic? then 3 else 2
    ensures OutcomeOf(f, LOST_SCENARIO, LOST_PLAN).total == 1
  {
    hide TrackAt;
    TickZeroOvershoots(f);
    LostBirth();
    var tracks := TracksAt(f, LOST_SCENARIO, LOST_PLAN, 2);
    OneAccount(InIdOrder(tracks));
    assert SortedIds(1)[0] == 0;
  }

  lemma LostBirth()
    ensures ValidPlan(3, LOST_PLAN) && Births(LOST_SCENARIO, LOST_PLAN, 2) == [Born(0, 2, 0, 5)]
  {
    assert Births(LOST_SCENARIO, LOST_PLAN, 0) == [];
    assert Births(LOST_SCENARIO, LOST_PLAN, 1) == [Born(0, 2, 0, 5)];
  }

  lemma OneAccount(tracks: seq<Track>)
    requires |tracks| == 1
    ensures Account(tracks).copies == tracks[0].copies && Account(tracks).total == 1
  {
    assert Account(tracks[..0]) == Outcome(0, 0, [], [], 0);
  }

  /** Both hold over all scenarios and schedules exactly when the first injection is after tick 0. */
  lemma OutcomesExactlyAfterTickZero(first: nat)
    ensures OutcomesAgree(first) <==> first >= 1
    ensures OutcomesBounded(first) <==> first >= 1
  {
    hide OutcomeOf, FirstInjection;
    if first >= 1 {
      forall sc, plan, budget: int | Runnable(sc, plan) && FirstInjection(sc) == first && budget >= sc.nodes - 1
        ensures OutcomeOf(SprayAndWait(budget), sc, plan) == OutcomeOf(Epidemic, sc, plan)
      {
        LargeBudgetOutcome(budget, sc, plan);
      }
      forall f, sc, plan | Runnable(sc, plan) && FirstInjection(sc) == first
        ensures OutcomeOf(f, sc, plan).copies <= OutcomeOf(f, sc, plan).total * (sc.nodes - 1)
      {
        OutcomeSound(f, sc, plan);
        WiderBound(OutcomeOf(f, sc, plan).total, CopiesBound(f, sc.nodes), sc.nodes - 1);
      }
    } else {
      LostOutcome(Epidemic);
      LostOutcome(SprayAndWait(2));
    }
  }

  lemma WiderBound(total: nat, each: int, most: int)
    requires each <= most
    ensures total * each <= total * most
  {
    assert total * (most - each) >= 0;
    assert total * most == total * each + total * (most - each);
  }

  ghost function TracksSweepingAll(f: Forwarder, sc: Scenario, plan: seq<TickPlan>): seq<Track>
    requires Runnable(sc, plan)
  {
    BirthsInjectable(sc, plan, |plan|);
    var births := Births(sc, plan, |plan|);
    seq(|births|, i requires 0 <= i < |births| => TrackAtSweepingAll(f, sc.nodes, plan, births[i], |plan|))
  }

  lemma {:induction false} AccountSameRecords(a: seq<Track>, b: seq<Track>)
    requires |a| == |b| && forall i :: 0 <= i < |a| ==> SameRecord(a[i], b[i])
    ensures Account(a) == Account(b)
  {
    if a != [] {
      assert SameRecord(a[|a| - 1], b[|a| - 1]);
      AccountSameRecords(a[..|a| - 1], b[..|a| - 1]);
    }
  }

  /** The sweep may as well discard delivered copies, as its comment says it does: no outcome changes. */
  lemma SweepOutcome(f: Forwarder, sc: Scenario, plan: seq<TickPlan>)
    requires Runnable(sc, plan)
    ensures OutcomeOf(f, sc, plan) == Account(InIdOrder(TracksSweepingAll(f, sc, plan)))
  {
    hide Account, TrackAt, TrackAtSweepingAll;
    BirthsInjectable(sc, plan, |plan|);
    var births := Births(sc, plan, |plan|);
    forall i | 0 <= i < |births|
      ensures SameRecord(TrackAt(f, sc.nodes, plan, births[i], |plan|),
                         TrackAtSweepingAll(f, sc.nodes, plan, births[i], |plan|))
    {
      SweepRefinement(f, sc.nodes, plan, births[i], |plan|);
    }
    var swept, all := TracksAt(f, sc, plan, |plan|), TracksSweepingAll(f, sc, plan);
    forall i | 0 <= i < |swept|
      ensures SameRecord(InIdOrder(swept)[i], InIdOrder(all)[i])
    {
      SamePlace(swept, all, i);
    }
    AccountSameRecords(InIdOrder(swept), InIdOrder(all));
  }
}
