/** A late prefetch, a second plan and a single load beside it: a run after which
    a plan's pin is never given back, whatever comes next. */
module ExpertPinLeak {
  import opened Wrappers
  import opened ExpertModel
  import opened ExpertEviction
  import opened ExpertPins
  import opened ExpertCache
  import Fetch = FetchAll
  import Prediction = Predictor
  import ReplayModel

  const ONE_BYTE := ExpertValue(0, 1)

  /** Every expert has one byte and can be read. */
  function Readable(): Loader {
    Loader(_ => ONE_BYTE, _ => true, _ => true)
  }

  /** The least recently used goes first. */
  function LeastRecent(): Utility {
    (e: CachedExpert, clock: nat) => e.lastUsed as real
  }

  const CAPACITY := 10
  const LAYER := 0

  const IDS: seq<nat> := [1, 2, 3, 4, 5, 6, 7, 8]

  function Eighths(n: nat): (s: seq<real>)
    ensures |s| == n
  {
    seq(n, _ => 0.125)
  }

  function TheRoute(): RouterResult {
    RouterResult(IDS, Eighths(TOP_K))
  }

  /** Prefetched for the other layer, and never demanded. */
  const STRAY := CachedExpert(1, 1, 1, 1, 0, true, 1, ONE_BYTE)

  /** Prefetched for the route's first expert, but delivered too late. */
  const LATE := CachedExpert(LAYER, 1, 1, 10, 0, true, 10, ONE_BYTE)

  /** The route's expert number `k`, as a miss left it and after its release. */
  function Member(k: nat, pinCount: nat): CachedExpert {
    CachedExpert(LAYER, k + 1, 1, k + 2, pinCount, false, k + 2, ONE_BYTE)
  }

  function Members(pinCount: nat): (s: seq<CachedExpert>)
    ensures |s| == TOP_K
  {
    seq(TOP_K, k requires 0 <= k < TOP_K => Member(k, pinCount))
  }

  lemma TheRouteIsExact()
    ensures ExactRoute(TheRoute())
  {
    NoneNamedTwice();
    SumOfEighths(TOP_K);
  }

  lemma {:induction false} SumOfEighths(n: nat)
    ensures Sum(Eighths(n)) == n as real * 0.125
  {
    if n != 0 {
      SumOfEighths(n - 1);
      assert Eighths(n)[..n - 1] == Eighths(n - 1);
    }
  }

  /** Entries of one byte each weigh as many bytes as there are entries. */
  lemma {:induction false} OneByteEach(entries: seq<CachedExpert>)
    requires forall i :: 0 <= i < |entries| ==> entries[i].value == ONE_BYTE
    ensures Weigh(entries, BytesOf) == |entries|
  {
    if entries != [] {
      OneByteEach(entries[..|entries| - 1]);
    }
  }

  lemma {:induction false} MissesWeigh(ids: seq<nat>, hits: seq<bool>)
    requires |hits| == |ids|
    ensures MissBytes(Readable().truth, LAYER, ids, hits) <= |ids|
    ensures (forall i :: 0 <= i < |hits| ==> hits[i]) ==> MissBytes(Readable().truth, LAYER, ids, hits) == 0
  {
    if ids != [] {
      MissesWeigh(ids[1..], hits[1..]);
    }
  }

  /** Binding misses pushes them in route order. */
  lemma {:induction false} BindingMisses(entries: seq<CachedExpert>, ids: seq<nat>, hits: seq<bool>, clock: nat)
    requires |hits| == |ids| && forall i :: 0 <= i < |hits| ==> !hits[i]
    ensures Bound(entries, Readable().truth, LAYER, ids, hits, clock)
         == entries + seq(|ids|, i requires 0 <= i < |ids| =>
              CachedExpert(LAYER, ids[i], 1, clock + i + 1, 1, false, clock + i + 1, ONE_BYTE))
    decreases |ids|
  {
    if ids != [] {
      var next := BindOne(entries, Readable().truth, LAYER, ids[0], false, clock + 1);
      BindingMisses(next, ids[1..], hits[1..], clock + 1);
    }
  }

  /** Binding hits changes no key and pins each route member where it stands. */
  lemma {:induction false} BindingHits(entries: seq<CachedExpert>, from: nat, ids: seq<nat>, hits: seq<bool>,
                                       clock: nat)
    requires |hits| == |ids| && Distinct(ids) && forall i :: 0 <= i < |hits| ==> hits[i]
    requires from + |ids| <= |entries|
    requires forall i :: 0 <= i < |ids| ==> First(entries, (LAYER, ids[i])) == Some(from + i)
    ensures var after := Bound(entries, Readable().truth, LAYER, ids, hits, clock);
      && |after| == |entries|
      && forall j :: 0 <= j < |entries| ==>
           after[j] == if from <= j < from + |ids| then PinnedAs(entries[j], clock + (j - from) + 1) else entries[j]
    decreases |ids|
  {
    hide First;
    if ids != [] {
      var next := entries[from := PinnedAs(entries[from], clock + 1)];
      assert next == BindOne(entries, Readable().truth, LAYER, ids[0], true, clock + 1);
      forall i | 0 <= i < |ids[1..]| ensures First(next, (LAYER, ids[1..][i])) == Some(from + 1 + i) {
        FirstSameKeys(entries, next, (LAYER, ids[1 + i]));
        assert First(entries, (LAYER, ids[1 + i])) == Some(from + (1 + i));
      }
      BindingHits(next, from + 1, ids[1..], hits[1..], clock + 1);
    }
  }

  // ------------------------------------------------------------------------
  // The run

  /** Before the second plan: the stray prefetch, then the route's members. */
  function Resident(pinCount: nat): (s: seq<CachedExpert>)
    ensures |s| == 1 + TOP_K
  {
    [STRAY] + Members(pinCount)
  }

  lemma NoneResident()
    ensures forall i :: 0 <= i < TOP_K ==> First([STRAY], (LAYER, IDS[i])).None?
  {
    forall i | 0 <= i < TOP_K ensures First([STRAY], (LAYER, IDS[i])).None? {
      FirstIs([STRAY], (LAYER, IDS[i]));
    }
  }

  /** Where a lookup finds each member, with or without the late copy behind. */
  lemma MemberIsFirst(tail: seq<CachedExpert>, k: nat)
    requires k < TOP_K
    ensures First(Resident(0) + tail, (LAYER, IDS[k])) == Some(1 + k)
  {
    var entries := Resident(0) + tail;
    assert entries[1 + k] == Member(k, 0);
    FirstUnique(entries, (LAYER, IDS[k]), Some(1 + k));
  }

  /** The first transaction: everything is missing and fits. */
  method FirstPlan(cache: WholeExpertLfuCache) returns (plan: ExpertLoadPlan)
    requires cache.Valid() && cache.Idle() && cache.truth == Readable().truth && cache.capacity == CAPACITY
    requires cache.Inflow() == Intake([], 0, 0, 0) && cache.inbox == [PrefetchDelivery(1, 1, ONE_BYTE, 0)]
    modifies cache
    ensures cache.Valid() && cache.activePlan == Some(plan) && cache.inbox == []
    ensures cache.entries == Resident(1) && cache.clock == 9
    ensures cache.workers == old(cache.workers) && cache.utility == old(cache.utility)
  {
    hide Bound, MissBytes, First, Weigh, RoomMade, AdmitAll, Resident, HitMask,
         WholeExpertLfuCache.Usable, WholeExpertLfuCache.Pinned, ExactRoute;
    TheRouteIsExact();
    StrayIsDrained(cache.Inflow(), cache.inbox);
    ghost var drained := AdmitAll(cache.Inflow(), cache.inbox, IDS, CAPACITY);
    ghost var hits := HitMask([STRAY], LAYER, IDS);
    AllMisses();
    NoRoomNeeded(cache.utility, drained, hits, IDS);
    assert !cache.CannotHold(drained, LAYER, IDS);
    var prepared := cache.PrepareExactRoute(Readable(), LAYER, TheRoute(), Fetch.Serial, []);
    plan := prepared.value;
    MaskIs([STRAY], plan.hits);
    MissesAreBound();
  }

  lemma StrayIsDrained(before: Intake, inbox: seq<PrefetchDelivery>)
    requires before == Intake([], 0, 0, 0) && inbox == [PrefetchDelivery(1, 1, ONE_BYTE, 0)]
    ensures AdmitAll(before, inbox, IDS, CAPACITY) == Intake([STRAY], 1, 1, 0)
  {
    OneAdmitted(before, inbox[0], IDS);
  }

  lemma AllMisses()
    ensures forall k :: 0 <= k < TOP_K ==> !HitMask([STRAY], LAYER, IDS)[k]
    ensures MissBytes(Readable().truth, LAYER, IDS, HitMask([STRAY], LAYER, IDS)) <= TOP_K
  {
    hide First, MissBytes;
    NoneResident();
    MissesWeigh(IDS, HitMask([STRAY], LAYER, IDS));
  }

  lemma MissesAreBound()
    ensures Bound([STRAY], Readable().truth, LAYER, IDS, HitMask([STRAY], LAYER, IDS), 1) == Resident(1)
  {
    hide Bound, HitMask, MissBytes;
    AllMisses();
    BindingMisses([STRAY], IDS, HitMask([STRAY], LAYER, IDS), 1);
  }

  lemma OneAdmitted(s: Intake, d: PrefetchDelivery, demanded: seq<nat>)
    ensures AdmitAll(s, [d], demanded, CAPACITY) == AdmitOne(s, d, demanded, CAPACITY)
  {
    assert [d][..0] == [];
  }

  /** Entries and misses of one byte that fit together need no eviction. */
  lemma NoRoomNeeded(utility: Utility, drained: Intake, hits: seq<bool>, ids: seq<nat>)
    requires |hits| == |ids| && forall i :: 0 <= i < |drained.entries| ==> drained.entries[i].value == ONE_BYTE
    requires var required := MissBytes(Readable().truth, LAYER, ids, hits); |drained.entries| + required <= CAPACITY
    ensures var required := MissBytes(Readable().truth, LAYER, ids, hits);
      && RoomMade(utility, drained.clock, drained.entries, required, CAPACITY, LAYER, ids) == drained.entries
      && Weigh(drained.entries, BytesOf) + required <= CAPACITY
  {
    hide MissBytes, Weigh, RoomMade;
    OneByteEach(drained.entries);
    RoomMadeStep(utility, drained.clock, drained.entries, MissBytes(Readable().truth, LAYER, ids, hits), CAPACITY,
      LAYER, ids);
  }

  /** The stray prefetch in front, the members pinned, the late copy behind. */
  ghost predicate Doubled(entries: seq<CachedExpert>) {
    && |entries| == 2 + TOP_K
    && entries[0] == STRAY && entries[1 + TOP_K] == LATE
    && forall k :: 1 <= k <= TOP_K ==>
         entries[k].pinCount == 1 && !entries[k].probation && entries[k].Key() == (LAYER, k)
  }

  /** What the second transaction starts from, once the late copy is drained. */
  function WithLate(): (s: seq<CachedExpert>)
    ensures |s| == 2 + TOP_K
  {
    Resident(0) + [LATE]
  }

  lemma LateIsDrained(before: Intake, inbox: seq<PrefetchDelivery>)
    requires before.entries == Resident(0) && before.residentBytes == 9 && before.clock == 9
    requires inbox == [PrefetchDelivery(LAYER, 1, ONE_BYTE, 0)]
    ensures AdmitAll(before, inbox, IDS, CAPACITY) == Intake(WithLate(), 10, 10, before.wastedBytes)
  {
    hide Resident;
    OneAdmitted(before, inbox[0], IDS);
  }

  /** Every member is a hit, and nothing needs to go. */
  lemma AllHits()
    ensures forall k :: 0 <= k < TOP_K ==> First(WithLate(), (LAYER, IDS[k])) == Some(1 + k)
    ensures forall k :: 0 <= k < TOP_K ==> HitMask(WithLate(), LAYER, IDS)[k]
    ensures MissBytes(Readable().truth, LAYER, IDS, HitMask(WithLate(), LAYER, IDS)) == 0
    ensures forall i :: 0 <= i < |WithLate()| ==> WithLate()[i].value == ONE_BYTE
  {
    hide First, MissBytes;
    forall k | 0 <= k < TOP_K ensures First(WithLate(), (LAYER, IDS[k])) == Some(1 + k) {
      MemberIsFirst([LATE], k);
    }
    MissesWeigh(IDS, HitMask(WithLate(), LAYER, IDS));
  }

  lemma HitsAreBound()
    ensures Doubled(Bound(WithLate(), Readable().truth, LAYER, IDS, HitMask(WithLate(), LAYER, IDS), 10))
  {
    hide First, Bound, HitMask, PinnedAs;
    AllHits();
    NoneNamedTwice();
    BindingHits(WithLate(), 1, IDS, HitMask(WithLate(), LAYER, IDS), 10);
    PinnedMembers(10);
  }

  lemma PinnedMembers(clock: nat)
    ensures forall k :: 1 <= k <= TOP_K ==>
      var e := PinnedAs(WithLate()[k], clock + (k - 1) + 1);
      e.pinCount == 1 && !e.probation && e.Key() == (LAYER, k)
  {
  }

  /** The second transaction: the late copy is drained, every member is a hit. */
  method SecondPlan(cache: WholeExpertLfuCache) returns (plan: ExpertLoadPlan)
    requires cache.Valid() && cache.Idle() && cache.truth == Readable().truth && cache.capacity == CAPACITY
    requires cache.entries == Resident(0) && cache.clock == 9
      && cache.inbox == [PrefetchDelivery(LAYER, 1, ONE_BYTE, 0)]
    requires cache.residentBytes == 9
    modifies cache
    ensures cache.Valid() && cache.activePlan == Some(plan) && plan.layer == LAYER && plan.route == TheRoute()
    ensures cache.utility == old(cache.utility)
    ensures Doubled(cache.entries)
  {
    hide Bound, MissBytes, First, Weigh, RoomMade, AdmitAll, Resident, WithLate, HitMask, Doubled,
         WholeExpertLfuCache.Usable, WholeExpertLfuCache.Pinned, ExactRoute;
    TheRouteIsExact();
    LateIsDrained(cache.Inflow(), cache.inbox);
    ghost var drained := AdmitAll(cache.Inflow(), cache.inbox, IDS, CAPACITY);
    ghost var hits := HitMask(WithLate(), LAYER, IDS);
    AllHits();
    NoRoomNeeded(cache.utility, drained, hits, IDS);
    assert !cache.CannotHold(drained, LAYER, IDS);
    var prepared := cache.PrepareExactRoute(Readable(), LAYER, TheRoute(), Fetch.Serial, []);
    plan := prepared.value;
    MaskIs(WithLate(), plan.hits);
    HitsAreBound();
  }

  lemma MaskIs(entries: seq<CachedExpert>, hits: seq<bool>)
    requires |hits| == |IDS| && HitsAre(entries, LAYER, IDS, hits, 0)
    ensures hits == HitMask(entries, LAYER, IDS)
  {
    hide First;
  }

  /** The stray prefetch is what a load evicts, and the late copy takes its slot. */
  lemma StrayIsEvicted(entries: seq<CachedExpert>, clock: nat)
    requires Doubled(entries) && forall i :: 0 <= i < |entries| ==> entries[i].value == ONE_BYTE
    ensures Victims(LeastRecent(), clock, entries, 1, CAPACITY, 2, []) == [0]
    ensures PinsMisplaced(entries, [0])
    ensures RemoveAll(entries, [0]) == SwapRemove(entries, 0)
  {
    hide Weigh;
    var rest := SwapRemove(entries, 0);
    OneByteEach(entries);
    OneByteEach(rest);
    assert Coldest(LeastRecent(), clock, entries, 2, [], 0);
    ColdestIs(LeastRecent(), clock, entries, 2, [], 0);
    assert Victims(LeastRecent(), clock, rest, 1, CAPACITY, 2, []) == [];
    assert [0][1..] == [];
    assert SlotAfter(10, [0], 9) == Some(0) && SlotAfter(10, [0], 1) == Some(1);
    assert Misplaces(entries, [0], 1, 9);
  }

  /** After the load the late copy stands in front of the pinned member, so a
      release gives back the copy's pin, which it has not, and not the member's. */
  lemma PinIsHidden(doubled: seq<CachedExpert>, after: seq<CachedExpert>)
    requires Doubled(doubled) && |after| >= 1 + TOP_K
    requires after[..1 + TOP_K] == SwapRemove(doubled, 0)
    ensures Released(after, LAYER, IDS).Some?
    ensures var released := Released(after, LAYER, IDS).value;
      |released| == |after| && released[1].Key() == (LAYER, 1) && released[1].pinCount == 1
  {
    hide Released, First;
    assert after[0] == after[..1 + TOP_K][0] == LATE;
    forall k | 1 <= k <= TOP_K ensures after[k] == doubled[k] {
      assert after[k] == after[..1 + TOP_K][k];
    }
    forall id | id in IDS ensures First(after, (LAYER, id)).Some? {
      FirstIs(after, (LAYER, id));
      assert after[id].Key() == (LAYER, id);
    }
    ResidentIsReleased(after, LAYER, IDS);
    FirstIs(after, (LAYER, 1));
    HiddenPinStays(after, LAYER, IDS, 1);
  }

  // ------------------------------------------------------------------------
  // What the predictor expects

  /** The route at `a`, and then the same route at `b`. */
  function Move(a: nat, b: nat): Prediction.Observation {
    Prediction.Observation(a, IDS, b, IDS)
  }

  /** Only ever the one route. */
  ghost predicate Monotonous(history: seq<Prediction.Observation>) {
    forall k :: 0 <= k < |history| ==> history[k] == Move(history[k].fromLayer, history[k].toLayer)
  }

  lemma {:induction false} NamedOnce(ids: seq<nat>, e: nat)
    requires Distinct(ids)
    ensures multiset(ids)[e] == if e in ids then 1 else 0
  {
    if ids != [] {
      var rest, last := ids[..|ids| - 1], ids[|ids| - 1];
      NamedOnce(rest, e);
      assert ids == rest + [last];
    }
  }

  lemma NoneNamedTwice()
    ensures Distinct(IDS)
  {
  }

  lemma MovePairs(a: nat, b: nat, from: ReplayModel.Key, to: ReplayModel.Key)
    ensures Prediction.Pairs(Move(a, b), from, to)
         == if from.layer == a && to.layer == b && from.expert in IDS && to.expert in IDS then 1 else 0
  {
    hide Distinct;
    var ids := IDS;
    NoneNamedTwice();
    NamedOnce(ids, from.expert);
    NamedOnce(ids, to.expert);
  }

  /** No member of the route is expected more than another. */
  lemma {:induction false} EvenWeights(history: seq<Prediction.Observation>, a: nat, b: nat, f: nat, e: nat)
    requires Monotonous(history) && f in IDS && e in IDS
    ensures Prediction.Weight(history, ReplayModel.Key(a, f), ReplayModel.Key(b, e))
         == Prediction.Weight(history, ReplayModel.Key(a, f), ReplayModel.Key(b, 1))
  {
    hide Prediction.Pairs, Move;
    if history != [] {
      var o := history[|history| - 1];
      assert o == Move(o.fromLayer, o.toLayer);
      EvenWeights(history[..|history| - 1], a, b, f, e);
      MovePairs(o.fromLayer, o.toLayer, ReplayModel.Key(a, f), ReplayModel.Key(b, e));
      MovePairs(o.fromLayer, o.toLayer, ReplayModel.Key(a, f), ReplayModel.Key(b, 1));
    }
  }

  lemma {:induction false} EvenTotals(history: seq<Prediction.Observation>, a: nat, route: seq<nat>, b: nat, e: nat)
    requires Monotonous(history) && e in IDS && forall f :: f in route ==> f in IDS
    ensures Prediction.Total(history, a, route, b, e) == Prediction.Total(history, a, route, b, 1)
  {
    hide Prediction.Weight;
    if route != [] {
      EvenTotals(history, a, route[..|route| - 1], b, e);
      EvenWeights(history, a, b, route[|route| - 1], e);
    }
  }

  /** Exactly the route's members are candidates, if the transition was seen. */
  lemma Candidates(history: seq<Prediction.Observation>, a: nat, b: nat, e: nat)
    requires Monotonous(history)
    ensures Prediction.HasFollowed(history, a, IDS, b, e) <==> e in IDS && Move(a, b) in history
  {
    hide Prediction.Pairs;
    if Move(a, b) in history && e in IDS {
      var k :| 0 <= k < |history| && history[k] == Move(a, b);
      MovePairs(a, b, ReplayModel.Key(a, 1), ReplayModel.Key(b, e));
      assert Prediction.Sighted(history, ReplayModel.Key(a, 1), ReplayModel.Key(b, e));
    }
    if Prediction.HasFollowed(history, a, IDS, b, e) {
      var f :| f in IDS && Prediction.Sighted(history, ReplayModel.Key(a, f), ReplayModel.Key(b, e));
      var k :| 0 <= k < |history| && Prediction.Pairs(history[k], ReplayModel.Key(a, f), ReplayModel.Key(b, e)) > 0;
      MovePairs(history[k].fromLayer, history[k].toLayer, ReplayModel.Key(a, f), ReplayModel.Key(b, e));
    }
  }

  /** With nothing resident and room for one, the predictor names the route's first
      member if it has seen the transition, and nobody otherwise. */
  lemma Expected(history: seq<Prediction.Observation>, a: nat, b: nat, prediction: seq<nat>)
    requires Monotonous(history)
    requires Prediction.IsPrediction(history, a, IDS, b, 1, {}, prediction)
    ensures prediction == if Move(a, b) in history then [1] else []
  {
    hide Prediction.HasFollowed, Prediction.Total, Move;
    var order, ranked :| Prediction.BestOf(history, a, IDS, b, 1, {}, prediction, order, ranked);
    forall e: nat
      ensures e in ranked <==> e in IDS && Move(a, b) in history
      ensures e in ranked ==> ranked[e] == Prediction.Total(history, a, IDS, b, 1)
    {
      assert Prediction.Gathered(history, a, IDS, b, {}, ranked, e);
      Candidates(history, a, b, e);
      if e in IDS {
        EvenTotals(history, a, IDS, b, e);
      }
    }
    FirstInOrder(ranked, order);
  }

  /** Of equals the first is the least. */
  lemma FirstInOrder(ranked: map<nat, real>, order: seq<nat>)
    requires Prediction.IsOrderOf(ranked, order)
    requires forall e :: e in ranked ==> e in IDS
    requires forall e, f :: e in ranked && f in ranked ==> ranked[e] == ranked[f]
    ensures 1 in ranked ==> order != [] && order[0] == 1
    ensures (forall e :: e !in ranked) ==> order == []
  {
    if order != [] {
      assert order[0] in ranked;
      assert forall i :: 0 < i < |order| ==> Prediction.Ahead(ranked, order[0], order[i]);
      if 1 in ranked {
        LeastIsNotBehind(ranked, order[0]);
      }
    }
  }

  lemma LeastIsNotBehind(ranked: map<nat, real>, e: nat)
    requires 1 in ranked && e in ranked && e in IDS && ranked[e] == ranked[1]
    ensures !Prediction.Ahead(ranked, e, 1)
  {
  }

  lemma FirstMoves()
    ensures Monotonous([]) && Monotonous([Move(LAYER, 1)]) && Move(1, LAYER) !in [Move(LAYER, 1)]
  {
  }

  /** The first token: two layers routed, and nothing to expect yet. */
  method LearnTheRoute() returns (cache: WholeExpertLfuCache)
    ensures fresh(cache) && fresh(cache.predictor) && cache.Valid() && cache.Idle() && cache.capacity == CAPACITY
    ensures cache.truth == Readable().truth && cache.utility == LeastRecent()
    ensures cache.prefetchEnabled && cache.prefetchDepth == 1 && cache.workers == [] && cache.inFlight == 0
    ensures cache.Inflow() == Intake([], 0, 0, 0) && cache.inbox == []
    ensures cache.predictor.history == [Move(LAYER, 1)] && cache.previousRoute == Some((1, IDS))
  {
    hide WholeExpertLfuCache.Accounted, WholeExpertLfuCache.Pinned, DemandedAt, Held, Prediction.IsPrediction,
         Monotonous;
    FirstMoves();
    cache := new WholeExpertLfuCache(CAPACITY, Readable().truth, LeastRecent(), true, 1);
    ghost var predicted := cache.AdvancePrefetch(LAYER, 1, TheRoute());
    assert cache.ResidentsOf(1) == {};
    Expected(cache.predictor.history, LAYER, 1, predicted);
    predicted := cache.AdvancePrefetch(1, LAYER, TheRoute());
    assert cache.predictor.history == [Move(LAYER, 1)];
    assert cache.ResidentsOf(LAYER) == {};
    Expected(cache.predictor.history, 1, LAYER, predicted);
  }

  /** Both prefetches issued, the first delivered, the second still under way. */
  method PrefetchTwice() returns (cache: WholeExpertLfuCache)
    ensures fresh(cache) && fresh(cache.predictor) && cache.Valid() && cache.Idle() && cache.capacity == CAPACITY
    ensures cache.truth == Readable().truth && cache.utility == LeastRecent()
    ensures cache.Inflow() == Intake([], 0, 0, 0) && cache.inbox == [PrefetchDelivery(1, 1, ONE_BYTE, 0)]
    ensures cache.workers == [PrefetchWorker(LAYER, [1], 0, false)]
  {
    hide WholeExpertLfuCache.Accounted, WholeExpertLfuCache.Pinned, WholeExpertLfuCache.Usable, DemandedAt,
         Deliveries, Move;
    cache := LearnTheRoute();
    TwoMoves();
    PrefetchOne(cache, LAYER, 1, [Move(LAYER, 1)]);
    OneDelivery(1, 1);
    cache.WorkerDelivers(0, Readable());
    cache.WorkerRetires(0);
    PrefetchOne(cache, 1, LAYER, [Move(LAYER, 1), Move(1, LAYER)]);
  }

  lemma TwoMoves()
    ensures Monotonous([Move(LAYER, 1)]) && Monotonous([Move(LAYER, 1), Move(1, LAYER)])
    ensures Move(LAYER, 1) in [Move(LAYER, 1)] && Move(1, LAYER) in [Move(LAYER, 1), Move(1, LAYER)]
    ensures [Move(LAYER, 1)] + [Move(1, LAYER)] == [Move(LAYER, 1), Move(1, LAYER)]
  {
  }

  /** The next layer's prefetch, once the transition has been seen. */
  method PrefetchOne(cache: WholeExpertLfuCache, from: nat, to: nat, ghost before: seq<Prediction.Observation>)
    requires cache.Valid() && cache.prefetchEnabled && cache.prefetchDepth == 1 && cache.workers == []
    requires cache.entries == [] && cache.clock == 0
    requires Monotonous(before) && Move(from, to) in before
    requires cache.predictor.history == before && cache.previousRoute == Some((to, IDS))
    modifies cache`previousRoute, cache`lastDemandClock, cache`inFlight, cache`workers, cache.predictor
    ensures cache.Valid() && cache.workers == [PrefetchWorker(to, [1], 0, false)]
    ensures cache.predictor.history == before + [Move(to, from)] && cache.previousRoute == Some((from, IDS))
  {
    hide WholeExpertLfuCache.Usable, WholeExpertLfuCache.Pinned, DemandedAt, Prediction.IsPrediction;
    ghost var predicted := cache.AdvancePrefetch(from, to, TheRoute());
    OneMoreMove(before, to, from, Move(from, to));
    assert cache.ResidentsOf(to) == {};
    Expected(cache.predictor.history, from, to, predicted);
  }

  lemma OneMoreMove(before: seq<Prediction.Observation>, a: nat, b: nat, seen: Prediction.Observation)
    requires Monotonous(before)
    ensures Monotonous(before + [Move(a, b)]) && (seen in before ==> seen in before + [Move(a, b)])
  {
  }

  lemma OneDelivery(layer: nat, expert: nat)
    ensures Deliveries(layer, [expert], 0, Readable()) == [PrefetchDelivery(layer, expert, ONE_BYTE, 0)]
  {
    assert [expert][..0] == [];
    assert Readable().Load((layer, expert)) == Some(ONE_BYTE);
    assert Deliveries(layer, [expert][..0], 0, Readable()) == [];
  }

  /** The first transaction ends before the second prefetch is delivered. */
  method DeliverLate(cache: WholeExpertLfuCache)
    requires cache.Valid() && cache.Idle() && cache.truth == Readable().truth && cache.capacity == CAPACITY
    requires cache.Inflow() == Intake([], 0, 0, 0) && cache.inbox == [PrefetchDelivery(1, 1, ONE_BYTE, 0)]
    requires cache.workers == [PrefetchWorker(LAYER, [1], 0, false)]
    modifies cache
    ensures cache.Valid() && cache.Idle() && cache.utility == old(cache.utility)
    ensures cache.entries == Resident(0) && cache.clock == 9 && cache.residentBytes == 9
    ensures cache.inbox == [PrefetchDelivery(LAYER, 1, ONE_BYTE, 0)]
  {
    hide Released, Resident, Deliveries, Weigh, First, PinnedExactly;
    var plan := FirstPlan(cache);
    var _ := cache.FinishExactRoute(plan);
    ReleasedMembers(cache.entries);
    ResidentWeighs();
    OneDelivery(LAYER, 1);
    cache.WorkerDelivers(0, Readable());
    cache.WorkerRetires(0);
  }

  lemma ReleasedMembers(after: seq<CachedExpert>)
    requires |after| == |Resident(1)| && Unpinned(after)
    requires forall i :: 0 <= i < |after| ==> after[i] == Resident(1)[i].(pinCount := after[i].pinCount)
    ensures after == Resident(0)
  {
  }

  lemma ResidentWeighs()
    ensures Weigh(Resident(0), BytesOf) == 9
  {
    OneByteEach(Resident(0));
  }

  /** One load beside the plan, and then the plan's end. */
  method LoadAndFinish(cache: WholeExpertLfuCache, plan: ExpertLoadPlan) returns (finished: Result<(), CacheError>)
    requires cache.Valid() && cache.truth == Readable().truth && cache.capacity == CAPACITY
    requires cache.utility == LeastRecent() && cache.activePlan == Some(plan)
    requires plan.layer == LAYER && plan.route == TheRoute() && Doubled(cache.entries)
    modifies cache
    ensures finished.Success? && cache.Usable() && cache.Idle()
    ensures |cache.entries| > 1 && cache.entries[1].Key() == (LAYER, 1) && cache.entries[1].pinCount == 1
  {
    hide Doubled, Weigh, First, RemoveAll, Victims, PinsMisplaced, Released, PinnedExactly;
    ghost var doubled := cache.entries;
    AllOneByte(doubled);
    StrayIsEvicted(doubled, cache.clock + 1);
    Absent(doubled);
    assert cache.LoadVictims(Readable(), 2, 5, doubled, cache.clock + 1) == [0];
    var loaded := cache.GetOrLoad(Readable(), 2, 5);
    assert !cache.Valid();
    FrontOf(doubled, cache.entries);
    PinIsHidden(doubled, cache.entries);
    finished := cache.FinishExactRoute(plan);
  }

  lemma AllOneByte(entries: seq<CachedExpert>)
    requires Faithful(entries, Readable().truth)
    ensures forall i :: 0 <= i < |entries| ==> entries[i].value == ONE_BYTE
  {
  }

  lemma Absent(doubled: seq<CachedExpert>)
    requires Doubled(doubled)
    ensures First(doubled, (2, 5)).None?
  {
    hide First;
    FirstIs(doubled, (2, 5));
  }

  lemma FrontOf(doubled: seq<CachedExpert>, after: seq<CachedExpert>)
    requires Doubled(doubled) && SwapRemove(doubled, 0) <= after
    ensures |after| >= 1 + TOP_K && after[..1 + TOP_K] == SwapRemove(doubled, 0)
  {
  }

  /** A delivery that comes late, a plan over the expert it doubles, and one load
      beside the plan: the plan is finished, successfully, and a pin remains. */
  method LeakPin() returns (cache: WholeExpertLfuCache, finished: Result<(), CacheError>)
    ensures fresh(cache) && fresh(cache.predictor) && cache.truth == Readable().truth
    ensures finished.Success? && cache.Usable() && cache.Idle()
    ensures |cache.entries| > 1 && cache.entries[1].Key() == (LAYER, 1) && cache.entries[1].pinCount == 1
  {
    hide Doubled, Resident, Weigh, First, RemoveAll, Victims, PinsMisplaced, Released, WholeExpertLfuCache.Usable;
    cache := PrefetchTwice();
    DeliverLate(cache);
    var plan := SecondPlan(cache);
    finished := LoadAndFinish(cache, plan);
  }

  /** Main result: after that, whatever is called, in whatever order and beside
      whatever prefetch threads, that pin is never given back. The pins are never
      in order again, and between plans the expert is pinned all the same. */
  method LatePrefetchLeaksPin(ops: seq<CacheOp>, loaders: seq<Loader>, fanout: Fetch.ReadFanout)
      returns (cache: WholeExpertLfuCache, finished: Result<(), CacheError>)
    requires |loaders| == |ops|
    requires forall i :: 0 <= i < |ops| ==> WellTyped(ops[i]) && loaders[i].truth == Readable().truth
    ensures fresh(cache) && finished.Success? && cache.Usable()
    ensures Surplus(cache.Holding(), (LAYER, 1)) >= 1 && !cache.Valid()
    ensures exists i ::
        0 <= i < |cache.entries| && cache.entries[i].Key() == (LAYER, 1) && cache.entries[i].pinCount > 0
  {
    hide WholeExpertLfuCache.Usable, PinsAt, PinnedExactly, WellTyped;
    cache, finished := LeakPin();
    ghost var leaked := cache.Holding();
    AtLeastItsPins(cache.entries, 1);
    var _, _ := RunCache(cache, ops, loaders, fanout);
    assert Surplus(leaked, (LAYER, 1)) <= Surplus(cache.Holding(), (LAYER, 1));
    SurplusIsOutOfOrder(cache.Holding(), (LAYER, 1));
  }

  lemma {:induction false} AtLeastItsPins(entries: seq<CachedExpert>, p: nat)
    requires p < |entries|
    ensures PinsAt(entries, entries[p].Key()) >= entries[p].pinCount
  {
    var n := |entries| - 1;
    if p < n {
      AtLeastItsPins(entries[..n], p);
    }
  }
}
