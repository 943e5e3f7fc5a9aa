/** The live whole-expert cache: plans, eviction, staging, pins and release, with
    a speculative prefetch worker delivering in the background. */
module ExpertCache {
  import opened Wrappers
  import opened ExpertModel
  import opened ExpertEviction
  import opened ExpertPins
  import Fetch = FetchAll
  import Prediction = Predictor

  datatype CacheStats = CacheStats(
    hits: nat,
    misses: nat,
    evictions: nat,
    rawMissBytes: nat,
    prefetched: nat,
    prefetchHits: nat,
    prefetchWastedBytes: nat,
    prefetchLate: nat)

  /** A spawned prefetch thread: what it will load, and whether it has delivered. */
  datatype PrefetchWorker = PrefetchWorker(layer: nat, experts: seq<nat>, issuedClock: nat, delivered: bool)

  const MAX_PREFETCH_BATCHES_IN_FLIGHT := 1

  /** Bytes the experts of `ids` will need that the mask does not call hits. */
  function MissBytes(truth: ExpertKey -> ExpertValue, layer: nat, ids: seq<nat>, hits: seq<bool>): nat
    requires |hits| == |ids|
  {
    if ids == [] then 0
    else (if hits[0] then 0 else truth((layer, ids[0])).storedBytes) + MissBytes(truth, layer, ids[1..], hits[1..])
  }

  function MissesOf(ids: seq<nat>, hits: seq<bool>): seq<nat>
    requires |hits| == |ids|
  {
    if ids == [] then []
    else (if hits[0] then [] else [ids[0]]) + MissesOf(ids[1..], hits[1..])
  }

  /** The state of a cache between two steps of a run. */
  datatype Moment = Moment(entries: seq<CachedExpert>, clock: nat, inbox: seq<PrefetchDelivery>,
    workers: seq<PrefetchWorker>,
                           plan: Option<ExpertLoadPlan>, batch: Option<BatchExpertPlan>,
                           history: seq<Prediction.Observation>, previous: Option<(nat, seq<nat>)>)

  class WholeExpertLfuCache {
    const capacity: nat
    ghost const truth: ExpertKey -> ExpertValue
    const predictor: Prediction.TransitionPredictor
    var utility: Utility
    var residentBytes: nat
    var clock: nat
    var nextPlanId: nat
    var activePlan: Option<ExpertLoadPlan>
    var activeBatchPlan: Option<BatchExpertPlan>
    var stats: CacheStats
    var entries: seq<CachedExpert>
    var previousRoute: Option<(nat, seq<nat>)>
    var lastDemandClock: map<ExpertKey, nat>
    var prefetchEnabled: bool
    var prefetchDepth: nat
    // shared with the prefetch threads
    var inbox: seq<PrefetchDelivery>
    var inFlight: nat
    var workers: seq<PrefetchWorker>
    // what conservation is stated with
    ghost var drainedBytes: nat
    ghost var promotedBytes: nat

    // ----------------------------------------------------------------------
    // Invariants

    /** Resident bytes are the entries' bytes; every drained speculative byte was
        promoted by a demand, is counted as wasted, or is still on probation;
        and every cached value is the file's. */
    ghost predicate Accounted()
      reads this`residentBytes, this`entries, this`drainedBytes, this`promotedBytes, this`stats, this`inbox
    {
      && residentBytes == Weigh(entries, BytesOf)
      && drainedBytes == promotedBytes + stats.prefetchWastedBytes + Weigh(entries, ProbationBytesOf)
      && Faithful(entries, truth)
      && FaithfulInbox(inbox, truth)
    }

    /** The experts a transaction holds: none, one route's, or one batch's. */
    ghost function PlannedIds(): seq<nat>
      reads this
    {
      if activePlan.Some? then activePlan.value.route.ids
      else if activeBatchPlan.Some? then activeBatchPlan.value.distinct
      else []
    }

    ghost function PlannedLayer(): nat
      reads this
    {
      if activePlan.Some? then activePlan.value.layer
      else if activeBatchPlan.Some? then activeBatchPlan.value.layer
      else 0
    }

    ghost function Holding(): Holdings
      reads this
    {
      Holdings(entries, PlannedLayer(), PlannedIds())
    }

    /** What can be seen to change from one step to the next. */
    ghost function Now(): Moment
      reads this, predictor
    {
      Moment(entries, clock, inbox, workers, activePlan, activeBatchPlan, predictor.history, previousRoute)
    }

    /** The in-flight count is the number of live prefetch threads, at most one. */
    ghost predicate Prefetching()
      reads this`inFlight, this`workers, predictor
    {
      inFlight == |workers| <= MAX_PREFETCH_BATCHES_IN_FLIGHT && predictor.Valid()
    }

    /** What every run keeps, single loads beside a plan included: at most one plan
        is active, and each of its experts has a pin. */
    ghost predicate Usable()
      reads this, predictor
    {
      && Accounted() && Prefetching()
      && !(activePlan.Some? && activeBatchPlan.Some?)
      && Held(Holding())
    }

    /** Exactly the planned experts are pinned, once each, where a lookup finds them. */
    ghost predicate Pinned()
      reads this
    {
      PinnedExactly(entries, PlannedLayer(), PlannedIds())
    }

    ghost predicate Valid()
      reads this, predictor
    {
      Usable() && Pinned()
    }

    ghost predicate Idle()
      reads this
    {
      activePlan.None? && activeBatchPlan.None?
    }

    constructor (capacity: nat, ghost truth: ExpertKey -> ExpertValue, utility: Utility, prefetchEnabled: bool,
                 prefetchDepth: nat)
      ensures this.capacity == capacity && this.truth == truth && this.utility == utility
      ensures this.prefetchEnabled == prefetchEnabled && this.prefetchDepth == prefetchDepth
      ensures Valid() && Idle() && Inflow() == Intake([], 0, 0, 0) && inbox == [] && workers == []
      ensures fresh(predictor) && predictor.history == [] && previousRoute == None
      ensures stats == CacheStats(0, 0, 0, 0, 0, 0, 0, 0)
    {
      this.capacity, this.truth, this.utility := capacity, truth, utility;
      this.prefetchEnabled, this.prefetchDepth := prefetchEnabled, prefetchDepth;
      residentBytes, clock, nextPlanId := 0, 0, 1;
      activePlan, activeBatchPlan := None, None;
      stats := CacheStats(0, 0, 0, 0, 0, 0, 0, 0);
      entries, previousRoute, lastDemandClock := [], None, map[];
      inbox, inFlight, workers := [], 0, [];
      drainedBytes, promotedBytes := 0, 0;
      predictor := new Prediction.TransitionPredictor();
    }

    // ----------------------------------------------------------------------
    // Eviction

    method RemoveEntry(index: nat)
      requires Accounted() && index < |entries|
      modifies this`entries, this`residentBytes, this`stats
      ensures Accounted()
      ensures entries == SwapRemove(old(entries), index)
      ensures residentBytes + BytesOf(old(entries)[index]) == old(residentBytes)
      ensures stats == old(stats).(evictions := old(stats).evictions + 1,
                                   prefetchWastedBytes := old(stats).prefetchWastedBytes
                                     + ProbationBytesOf(old(entries)[index]))
    {
      hide Weigh;
      var entry := entries[index];
      WeighSwapRemove(entries, index, BytesOf);
      WeighSwapRemove(entries, index, ProbationBytesOf);
      entries := SwapRemove(entries, index);
      residentBytes := SaturatingSub(residentBytes, entry.value.storedBytes);
      if entry.probation {
        stats := stats.(prefetchWastedBytes := stats.prefetchWastedBytes + entry.value.storedBytes);
      }
      stats := stats.(evictions := stats.evictions + 1);
    }

    /** The scan for the entry to evict. */
    method FindColdest(layer: nat, experts: seq<nat>) returns (best: Option<nat>)
      ensures best == ColdestSlot(utility, clock, entries, layer, experts)
      ensures best.None? ==> forall j :: 0 <= j < |entries| ==> !Evictable(entries[j], layer, experts)
    {
      hide Before, Evictable;
      best := None;
      for i := 0 to |entries|
        invariant ColdestSoFar(utility, clock, entries, i, layer, experts, best)
      {
        if Evictable(entries[i], layer, experts) {
          if best.None? {
            NotBeforeItself(utility, clock, entries[i]);
            best := Some(i);
          } else if Before(utility, clock, entries[i], entries[best.value]) {
            ColderThanSoFar(utility, clock, entries, i, layer, experts, best.value);
            best := Some(i);
          }
        }
      }
      if best.None? {
        NothingIsColdest(utility, clock, entries, layer, experts);
      } else {
        ColdestIs(utility, clock, entries, layer, experts, best.value);
      }
    }

    /** Evicts the coldest unpinned entry outside `experts` of `layer`, if any. */
    method EvictColdestExcluding(layer: nat, experts: seq<nat>) returns (found: bool)
      requires Accounted()
      modifies this`entries, this`residentBytes, this`stats
      ensures Accounted()
      ensures found <==> ColdestSlot(utility, clock, old(entries), layer, experts).Some?
      ensures found ==>
        var v := ColdestSlot(utility, clock, old(entries), layer, experts).value;
        && entries == SwapRemove(old(entries), v)
        && residentBytes + BytesOf(old(entries)[v]) == old(residentBytes)
        && stats == old(stats).(evictions := old(stats).evictions + 1,
                                prefetchWastedBytes := old(stats).prefetchWastedBytes
                                  + ProbationBytesOf(old(entries)[v]))
      ensures !found ==>
        && entries == old(entries) && residentBytes == old(residentBytes) && stats == old(stats)
        && forall j :: 0 <= j < |entries| ==> !Evictable(entries[j], layer, experts)
    {
      hide Before, Weigh, Faithful, FaithfulInbox;
      var best := FindColdest(layer, experts);
      if best.None? {
        return false;
      }
      RemoveEntry(best.value);
      found := true;
    }

    /** Evicts until `required` more bytes fit, coldest first, never an expert of
        the route, and no more than needed. */
    method MakeRoom(required: nat, layer: nat, experts: seq<nat>) returns (ok: bool)
      requires Accounted()
      modifies this`entries, this`residentBytes, this`stats
      ensures Accounted() && (old(Unpinned(entries)) ==> Unpinned(entries))
      ensures entries == RoomMade(utility, clock, old(entries), required, capacity, layer, experts)
      ensures ok <==> residentBytes + required <= capacity
      ensures !ok ==> forall j :: 0 <= j < |entries| ==> !Evictable(entries[j], layer, experts)
      ensures forall id :: id in experts ==>
        (First(entries, (layer, id)).Some? <==> First(old(entries), (layer, id)).Some?)
      ensures |entries| <= |old(entries)|
      ensures stats == old(stats).(evictions := old(stats).evictions + (|old(entries)| - |entries|),
                                   prefetchWastedBytes := stats.prefetchWastedBytes)
    {
      hide Weigh, RoomMade, Faithful, FaithfulInbox;
      while residentBytes + required > capacity
        invariant Accounted() && (old(Unpinned(entries)) ==> Unpinned(entries))
        invariant RoomMade(utility, clock, entries, required, capacity, layer, experts)
               == RoomMade(utility, clock, old(entries), required, capacity, layer, experts)
        invariant forall id :: id in experts ==>
          (First(entries, (layer, id)).Some? <==> First(old(entries), (layer, id)).Some?)
        invariant |entries| <= |old(entries)|
        invariant stats == old(stats).(evictions := old(stats).evictions + (|old(entries)| - |entries|),
                                       prefetchWastedBytes := stats.prefetchWastedBytes)
        decreases |entries|
      {
        ghost var before := entries;
        RoomMadeStep(utility, clock, entries, required, capacity, layer, experts);
        var found := EvictColdestExcluding(layer, experts);
        if !found {
          return false;
        }
        forall id | id in experts
          ensures First(entries, (layer, id)).Some? <==> First(before, (layer, id)).Some?
        {
          FirstSurvives(before, ColdestSlot(utility, clock, before, layer, experts).value, (layer, id));
        }
      }
      RoomMadeStep(utility, clock, entries, required, capacity, layer, experts);
      ok := true;
    }

    // ----------------------------------------------------------------------
    // Prefetch

    /** The fields draining changes. */
    ghost function Inflow(): Intake
      reads this
    {
      Intake(entries, residentBytes, clock, stats.prefetchWastedBytes)
    }

    /** What draining the inbox for a route makes of them. */
    ghost function DrainedFor(demanded: seq<nat>): Intake
      reads this
    {
      AdmitAll(Inflow(), inbox, demanded, capacity)
    }

    /** Admits what the prefetch threads have delivered: as probation entries when
        they fit or are demanded, as wasted bytes otherwise. Evicts nothing. */
    method DrainPrefetchInbox(demanded: seq<nat>)
      requires Accounted()
      modifies this`inbox, this`entries, this`residentBytes, this`stats, this`clock, this`drainedBytes
      ensures Accounted() && inbox == []
      ensures Inflow() == AdmitAll(old(Inflow()), old(inbox), demanded, capacity)
      ensures old(entries) <= entries
      ensures forall i :: |old(entries)| <= i < |entries| ==> entries[i].pinCount == 0 && entries[i].probation
      ensures stats.prefetched == old(stats).prefetched + |old(inbox)|
      ensures stats.hits == old(stats).hits && stats.misses == old(stats).misses
      ensures stats.rawMissBytes == old(stats).rawMissBytes && stats.prefetchHits == old(stats).prefetchHits
    {
      hide Weigh, AdmitOne;
      var deliveries := inbox;
      inbox := [];
      for d := 0 to |deliveries|
        invariant Accounted() && inbox == []
        invariant Inflow() == AdmitAll(old(Inflow()), deliveries[..d], demanded, capacity)
        invariant old(entries) <= entries
        invariant forall i :: |old(entries)| <= i < |entries| ==> entries[i].pinCount == 0 && entries[i].probation
        invariant stats.prefetched == old(stats).prefetched + d
        invariant stats.hits == old(stats).hits && stats.misses == old(stats).misses
        invariant stats.rawMissBytes == old(stats).rawMissBytes && stats.prefetchHits == old(stats).prefetchHits
      {
        assert deliveries[..d + 1][..d] == deliveries[..d];
        ghost var admitted := AdmitDelivery(deliveries[d], demanded);
      }
      assert deliveries[..|deliveries|] == deliveries;
    }

    /** One delivery: a probation entry if it fits or is demanded, else waste. The
        test for demand looks at the expert only, not at the layer. */
    method AdmitDelivery(delivery: PrefetchDelivery, demanded: seq<nat>) returns (ghost admitted: seq<CachedExpert>)
      requires Accounted() && delivery.value == truth((delivery.layer, delivery.expert))
      modifies this`entries, this`residentBytes, this`stats, this`clock, this`drainedBytes
      ensures Accounted()
      ensures Inflow() == AdmitOne(old(Inflow()), delivery, demanded, capacity)
      ensures drainedBytes == old(drainedBytes) + delivery.value.storedBytes
      ensures entries == old(entries) + admitted
      ensures forall i :: 0 <= i < |admitted| ==> admitted[i].pinCount == 0 && admitted[i].probation
      ensures var key := (delivery.layer, delivery.expert); stats == old(stats).(
        prefetched := old(stats).prefetched + 1, prefetchWastedBytes := stats.prefetchWastedBytes,
        prefetchLate := old(stats).prefetchLate
          + if key in lastDemandClock && lastDemandClock[key] > delivery.issuedClock then 1 else 0)
    {
      hide Weigh, Faithful, FaithfulInbox;
      CountDelivery(delivery);
      var bytes := delivery.value.storedBytes;
      drainedBytes := drainedBytes + bytes;
      if residentBytes + bytes > capacity && delivery.expert !in demanded {
        stats := stats.(prefetchWastedBytes := stats.prefetchWastedBytes + bytes);
        return [];
      }
      clock := clock + 1;
      var entry := CachedExpert(delivery.layer, delivery.expert, 1, clock, 0, true, clock, delivery.value);
      PushEntry(entry);
      return [entry];
    }

    /** A delivery is late if its expert has been demanded since it was issued. */
    method CountDelivery(delivery: PrefetchDelivery)
      modifies this`stats
      ensures var key := (delivery.layer, delivery.expert); stats == old(stats).(
        prefetched := old(stats).prefetched + 1,
        prefetchLate := old(stats).prefetchLate
          + if key in lastDemandClock && lastDemandClock[key] > delivery.issuedClock then 1 else 0)
    {
      stats := stats.(prefetched := stats.prefetched + 1);
      var key := (delivery.layer, delivery.expert);
      var lastDemand := if key in lastDemandClock then lastDemandClock[key] else 0;
      if lastDemand > delivery.issuedClock {
        stats := stats.(prefetchLate := stats.prefetchLate + 1);
      }
    }

    method PushEntry(entry: CachedExpert)
      requires residentBytes == Weigh(entries, BytesOf)
      requires Faithful(entries, truth) && entry.value == truth(entry.Key())
      modifies this`entries, this`residentBytes
      ensures entries == old(entries) + [entry] && residentBytes == old(residentBytes) + BytesOf(entry)
      ensures residentBytes == Weigh(entries, BytesOf)
      ensures Weigh(entries, ProbationBytesOf) == Weigh(old(entries), ProbationBytesOf) + ProbationBytesOf(entry)
      ensures Faithful(entries, truth)
    {
      hide Weigh;
      WeighAppend(entries, entry, BytesOf);
      WeighAppend(entries, entry, ProbationBytesOf);
      residentBytes := residentBytes + entry.value.storedBytes;
      entries := entries + [entry];
    }

    /** The experts of a layer that are resident. */
    function ResidentsOf(layer: nat): set<nat>
      reads this`entries
    {
      set i | 0 <= i < |entries| && entries[i].layer == layer :: entries[i].expert
    }

    /** What following `fromLayer`'s route on the last one shows. */
    ghost function Observed(fromLayer: nat, ids: seq<nat>): seq<Prediction.Observation>
      reads this`previousRoute
    {
      match previousRoute
      case None => []
      case Some((layer, route)) => [Prediction.Observation(layer, route, fromLayer, ids)]
    }

    predicate MayPrefetch()
      reads this`prefetchEnabled, this`prefetchDepth, this`inFlight
    {
      prefetchEnabled && prefetchDepth > 0 && inFlight < MAX_PREFETCH_BATCHES_IN_FLIGHT
    }

    /** Observes the transition to the route just demanded, notes the demand and,
        with no batch in flight, starts one prefetch thread for what the predictor
        expects at the next layer and is not resident there. */
    method AdvancePrefetch(fromLayer: nat, toLayer: nat, route: RouterResult) returns (ghost predicted: seq<nat>)
      requires Usable()
      modifies this`previousRoute, this`lastDemandClock, this`inFlight, this`workers, predictor
      ensures Usable() && (old(Valid()) ==> Valid())
      ensures previousRoute == Some((fromLayer, route.ids))
      ensures predictor.history == old(predictor.history) + old(Observed(fromLayer, route.ids))
      ensures lastDemandClock == DemandedAt(old(lastDemandClock), fromLayer, route.ids, clock)
      ensures old(prefetchEnabled && prefetchDepth > 0 && workers == []) ==>
        Prediction.IsPrediction(predictor.history, fromLayer, route.ids, toLayer, prefetchDepth,
                                set i | 0 <= i < |entries|
                                  && entries[i].layer == toLayer :: entries[i].expert, predicted)
      ensures workers == if old(prefetchEnabled && prefetchDepth > 0 && workers == []) && predicted != []
                         then [PrefetchWorker(toLayer, predicted, clock, false)] else old(workers)
    {
      hide Accounted, PinnedExactly, Held, Prediction.IsPrediction;
      predicted := [];
      if previousRoute.Some? {
        predictor.Observe(previousRoute.value.0, previousRoute.value.1, fromLayer, route.ids);
      }
      NoteDemand(fromLayer, route.ids);
      if !MayPrefetch() {
        return;
      }
      var batch := Prediction.Predict(predictor, fromLayer, route.ids, toLayer, prefetchDepth, ResidentsOf(toLayer));
      predicted := batch;
      if batch == [] {
        return;
      }
      inFlight := inFlight + 1;
      workers := workers + [PrefetchWorker(toLayer, batch, clock, false)];
    }

    method NoteDemand(layer: nat, ids: seq<nat>)
      modifies this`previousRoute, this`lastDemandClock
      ensures previousRoute == Some((layer, ids))
      ensures lastDemandClock == DemandedAt(old(lastDemandClock), layer, ids, clock)
    {
      previousRoute := Some((layer, ids));
      for i := 0 to |ids|
        invariant previousRoute == Some((layer, ids))
        invariant lastDemandClock == DemandedAt(old(lastDemandClock), layer, ids[..i], clock)
      {
        assert ids[..i + 1][..i] == ids[..i];
        lastDemandClock := lastDemandClock[(layer, ids[i]) := clock];
      }
      assert ids[..|ids|] == ids;
    }

    /** A prefetch thread finishes its loads and delivers what could be read. */
    method WorkerDelivers(w: nat, loader: Loader)
      requires Usable() && loader.truth == truth
      requires w < |workers| && !workers[w].delivered
      modifies this`inbox, this`workers
      ensures Usable() && (old(Valid()) ==> Valid())
      ensures workers == old(workers)[w := old(workers)[w].(delivered := true)]
      ensures var worker := old(workers)[w];
        inbox == old(inbox) + Deliveries(worker.layer, worker.experts, worker.issuedClock, loader)
    {
      hide Held, PinnedExactly;
      var worker := workers[w];
      var deliveries: seq<PrefetchDelivery> := [];
      for i := 0 to |worker.experts|
        invariant FaithfulInbox(deliveries, truth)
        invariant deliveries == Deliveries(worker.layer, worker.experts[..i], worker.issuedClock, loader)
      {
        assert worker.experts[..i + 1][..i] == worker.experts[..i];
        var value := loader.Load((worker.layer, worker.experts[i]));
        if value.Some? {
          deliveries := deliveries + [PrefetchDelivery(worker.layer, worker.experts[i], value.value,
            worker.issuedClock)];
        }
      }
      assert worker.experts[..|worker.experts|] == worker.experts;
      inbox := inbox + deliveries;
      workers := workers[w := worker.(delivered := true)];
    }

    /** A prefetch thread that has delivered gives back its in-flight slot. */
    method WorkerRetires(w: nat)
      requires Usable()
      requires w < |workers| && workers[w].delivered
      modifies this`inFlight, this`workers
      ensures Usable() && (old(Valid()) ==> Valid())
      ensures inFlight == old(inFlight) - 1
      ensures workers == old(workers)[..w] + old(workers)[w + 1..]
    {
      hide Held, PinnedExactly, Accounted;
      inFlight := inFlight - 1;
      workers := workers[..w] + workers[w + 1..];
    }

    // ----------------------------------------------------------------------
    // Exact routes

    /** Eight distinct canonical experts with non-negative weights that sum to one. */
    method ValidateRoute(route: RouterResult) returns (ok: bool)
      requires |route.ids| == |route.weights| == TOP_K
      ensures ok <==> ExactRoute(route)
      ensures ok <==>
        && (forall i :: 0 <= i < 8 ==> route.ids[i] < 256 && 0.0 <= route.weights[i])
        && (forall i, j :: 0 <= i < j < 8 ==> route.ids[i] != route.ids[j])
        && 0.9999 <= Sum(route.weights) <= 1.0001
    {
      var seen: set<nat> := {};
      for i := 0 to TOP_K
        invariant seen == set id | id in route.ids[..i]
        invariant Distinct(route.ids[..i])
        invariant forall j :: 0 <= j < i ==> route.ids[j] < NUM_EXPERTS && 0.0 <= route.weights[j]
      {
        assert route.ids[..i + 1] == route.ids[..i] + [route.ids[i]];
        if route.ids[i] >= NUM_EXPERTS || route.ids[i] in seen {
          if route.ids[i] in seen {
            var j :| 0 <= j < i && route.ids[j] == route.ids[i];
          }
          return false;
        }
        if route.weights[i] < 0.0 {
          return false;
        }
        seen := seen + {route.ids[i]};
      }
      assert route.ids[..TOP_K] == route.ids;
      return -0.0001 <= Sum(route.weights) - 1.0 <= 0.0001;
    }

    /** Which of `ids` are resident, and how many bytes the others will need. */
    method PlanIds(loader: Loader, layer: nat, ids: seq<nat>) returns (r: Result<(seq<bool>, nat), CacheError>)
      requires loader.truth == truth
      ensures r.Failure? ==> r.error == UnknownExpert && exists id :: id in ids && loader.StoredBytes((layer, id)).None?
      ensures r.Success? ==>
        && |r.value.0| == |ids|
        && (forall i :: 0 <= i < |ids| ==> r.value.0[i] == First(entries, (layer, ids[i])).Some?)
        && r.value.1 == MissBytes(truth, layer, ids, r.value.0)
    {
      var hits: seq<bool> := [];
      var missBytes := 0;
      for i := 0 to |ids|
        invariant |hits| == i
        invariant forall j :: 0 <= j < i ==> hits[j] == First(entries, (layer, ids[j])).Some?
        invariant missBytes == MissBytes(truth, layer, ids[..i], hits)
      {
        var hit := First(entries, (layer, ids[i])).Some?;
        MissBytesSnoc(truth, layer, ids[..i], hits, ids[i], hit);
        assert ids[..i + 1] == ids[..i] + [ids[i]];
        if !hit {
          var bytes := loader.StoredBytes((layer, ids[i]));
          if bytes.None? {
            return Failure(UnknownExpert);
          }
          missBytes := missBytes + bytes.value;
        }
        hits := hits + [hit];
      }
      assert ids[..|ids|] == ids;
      return Success((hits, missBytes));
    }

    /** Reads every missing expert before any of them becomes visible. */
    method StageMisses(loader: Loader, layer: nat, misses: seq<nat>, fanout: Fetch.ReadFanout, schedule: seq<nat>)
        returns (r: Result<seq<(nat, ExpertValue)>, CacheError>)
      requires loader.truth == truth
      ensures r.Failure? ==> r.error == LoadFailed && exists id :: id in misses && loader.Load((layer, id)).None?
      ensures r.Success? ==> StagedAre(r.value, truth, layer, misses)
    {
      var fetch := (id: nat) =>
        match loader.Load((layer, id))
        case None => Failure(LoadFailed)
        case Some(value) => Success((id, value));
      ghost var threads;
      r, threads := Fetch.FetchAll(fanout, misses, fetch, schedule);
      Fetch.CollectIs(Fetch.FetchEach(misses, fetch));
      if r.Success? {
        forall i | 0 <= i < |misses| ensures r.value[i] == (misses[i], truth((layer, misses[i]))) {
          assert Fetch.FetchEach(misses, fetch)[i] == Success(r.value[i]);
        }
      }
    }

    /** A planned expert that is resident: pinned, made recent, and promoted if it
        was on probation. */
    method PinHit(p: nat, demands: nat)
      requires Accounted() && p < |entries|
      modifies this`entries, this`stats, this`promotedBytes
      ensures Accounted() && SameKeys(entries, old(entries))
      ensures entries == old(entries)[p := PinnedAs(old(entries)[p], clock)]
      ensures var was, now := old(entries)[p], entries[p];
        && now.frequency == was.frequency + 1 && now.lastUsed == clock && now.pinCount == was.pinCount + 1
           && !now.probation
        && now == was.(frequency := now.frequency, lastUsed := now.lastUsed, pinCount := now.pinCount,
           probation := false)
      ensures promotedBytes == old(promotedBytes) + ProbationBytesOf(old(entries)[p])
      ensures stats == old(stats).(hits := old(stats).hits + demands,
                                   prefetchHits := old(stats).prefetchHits + if old(entries)[p].probation then 1 else 0)
    {
      hide Weigh, Faithful, FaithfulInbox, SameKeys;
      var entry := entries[p];
      RepinWeighs(entries, p, clock);
      promotedBytes := promotedBytes + ProbationBytesOf(entry);
      entries := entries[p := entry.(frequency := entry.frequency + 1, lastUsed := clock,
        pinCount := entry.pinCount + 1,
                                     probation := false)];
      if entry.probation {
        stats := stats.(prefetchHits := stats.prefetchHits + 1);
      }
      stats := stats.(hits := stats.hits + demands);
    }

    lemma RepinWeighs(entries: seq<CachedExpert>, p: nat, clock: nat)
      requires p < |entries|
      ensures var after := entries[p := PinnedAs(entries[p], clock)];
        && Weigh(after, BytesOf) == Weigh(entries, BytesOf)
        && Weigh(after, ProbationBytesOf) + ProbationBytesOf(entries[p]) == Weigh(entries, ProbationBytesOf)
        && SameKeys(after, entries) && (Faithful(entries, truth) ==> Faithful(after, truth))
    {
      hide Weigh, Faithful, SameKeys;
      var pinned := PinnedAs(entries[p], clock);
      WeighUpdate(entries, p, pinned, BytesOf);
      WeighUpdate(entries, p, pinned, ProbationBytesOf);
      UpdateIsFaithful(entries, p, pinned, truth);
    }

    /** A planned expert that was staged: pushed as a pinned entry. */
    method PushMiss(layer: nat, id: nat, value: ExpertValue)
      requires Accounted() && value == truth((layer, id))
      modifies this`entries, this`residentBytes, this`stats
      ensures Accounted()
      ensures entries == old(entries) + [CachedExpert(layer, id, 1, clock, 1, false, clock, value)]
      ensures residentBytes == old(residentBytes) + value.storedBytes
      ensures stats == old(stats).(misses := old(stats).misses + 1,
        rawMissBytes := old(stats).rawMissBytes + value.storedBytes)
    {
      stats := stats.(misses := stats.misses + 1, rawMissBytes := stats.rawMissBytes + value.storedBytes);
      PushEntry(CachedExpert(layer, id, 1, clock, 1, false, clock, value));
    }

    /** Binds a staged transaction: every planned expert becomes a pinned entry.
        The lost-hit and unstaged-miss errors of the source are unreachable. */
    method BindPlanned(layer: nat, ids: seq<nat>, hits: seq<bool>, demands: seq<nat>, staging: seq<(nat, ExpertValue)>)
        returns (r: Result<(), CacheError>)
      requires Accounted()
      requires Distinct(ids) && |hits| == |demands| == |ids|
      requires HitsAre(entries, layer, ids, hits, 0)
      requires StagedFor(staging, truth, layer, MissesOf(ids, hits))
      modifies this`entries, this`residentBytes, this`stats, this`clock, this`promotedBytes
      ensures r.Success? && Accounted()
      ensures entries == Bound(old(entries), truth, layer, ids, hits, old(clock)) && clock == old(clock) + |ids|
      ensures old(Unpinned(entries)) ==> PinnedExactly(entries, layer, ids)
      ensures residentBytes == old(residentBytes) + MissBytes(truth, layer, ids, hits)
      ensures stats.misses == old(stats).misses + |MissesOf(ids, hits)|
      ensures stats.rawMissBytes == old(stats).rawMissBytes + MissBytes(truth, layer, ids, hits)
      ensures stats.hits == old(stats).hits + HitDemands(hits, demands)
    {
      hide Bound, BindOne, Weigh, Faithful, FaithfulInbox, PinnedExactly, Unpinned, HitsAre, StagedFor,
           MissBytes, HitDemands;
      var staged := staging;
      NothingPlanned(entries, layer);
      assert ids[..0] == [] && ids[0..] == ids && hits[0..] == hits && demands[0..] == demands;
      for k := 0 to |ids|
        invariant Accounted() && clock == old(clock) + k
        invariant Bound(entries, truth, layer, ids[k..], hits[k..], clock)
          == Bound(old(entries), truth, layer, ids, hits, old(clock))
        invariant old(Unpinned(entries)) ==> PinnedExactly(entries, layer, ids[..k])
        invariant HitsAre(entries, layer, ids, hits, k)
        invariant StagedFor(staged, truth, layer, MissesOf(ids[k..], hits[k..]))
        invariant residentBytes + MissBytes(truth, layer, ids[k..], hits[k..])
               == old(residentBytes) + MissBytes(truth, layer, ids, hits)
        invariant stats.misses + |MissesOf(ids[k..], hits[k..])| == old(stats).misses + |MissesOf(ids, hits)|
        invariant stats.rawMissBytes + MissBytes(truth, layer, ids[k..], hits[k..])
               == old(stats).rawMissBytes + MissBytes(truth, layer, ids, hits)
        invariant stats.hits + HitDemands(hits[k..], demands[k..]) == old(stats).hits + HitDemands(hits, demands)
      {
        BoundNext(entries, truth, layer, ids, hits, k, clock);
        SumsNext(ids, hits, demands, k, layer);
        r, staged := BindNext(layer, ids, hits, demands, staged, k);
      }
      assert ids[..|ids|] == ids && ids[|ids|..] == [] && hits[|ids|..] == [] && demands[|ids|..] == [];
      BoundDone(entries, truth, layer, clock);
      NoSums(layer);
      r := Success(());
    }

    lemma SumsNext(ids: seq<nat>, hits: seq<bool>, demands: seq<nat>, k: nat, layer: nat)
      requires |hits| == |demands| == |ids| && k < |ids|
      ensures MissBytes(truth, layer, ids[k..], hits[k..])
           == (if hits[k] then 0 else truth((layer, ids[k])).storedBytes)
             + MissBytes(truth, layer, ids[k + 1..], hits[k + 1..])
      ensures |MissesOf(ids[k..], hits[k..])| == (if hits[k] then 0 else 1) + |MissesOf(ids[k + 1..], hits[k + 1..])|
      ensures HitDemands(hits[k..], demands[k..])
           == (if hits[k] then demands[k] else 0) + HitDemands(hits[k + 1..], demands[k + 1..])
    {
      assert ids[k..][1..] == ids[k + 1..] && hits[k..][1..] == hits[k + 1..] && demands[k..][1..] == demands[k + 1..];
    }

    lemma NoSums(layer: nat)
      ensures MissBytes(truth, layer, [], []) == 0 && MissesOf([], []) == [] && HitDemands([], []) == 0
    {
    }

    /** Binds the next planned expert. */
    method BindNext(layer: nat, ids: seq<nat>, hits: seq<bool>, demands: seq<nat>, staged: seq<(nat, ExpertValue)>,
                    k: nat)
        returns (r: Result<(), CacheError>, rest: seq<(nat, ExpertValue)>)
      requires Accounted() && Distinct(ids) && |hits| == |demands| == |ids| && k < |ids|
      requires HitsAre(entries, layer, ids, hits, k)
      requires StagedFor(staged, truth, layer, MissesOf(ids[k..], hits[k..]))
      modifies this`entries, this`residentBytes, this`stats, this`clock, this`promotedBytes
      ensures r.Success? && Accounted() && clock == old(clock) + 1
      ensures entries == BindOne(old(entries), truth, layer, ids[k], hits[k], clock)
      ensures old(PinnedExactly(entries, layer, ids[..k])) ==> PinnedExactly(entries, layer, ids[..k + 1])
      ensures HitsAre(entries, layer, ids, hits, k + 1)
      ensures StagedFor(rest, truth, layer, MissesOf(ids[k + 1..], hits[k + 1..]))
      ensures residentBytes == old(residentBytes) + (if hits[k] then 0 else truth((layer, ids[k])).storedBytes)
      ensures stats.misses == old(stats).misses + (if hits[k] then 0 else 1)
      ensures stats.rawMissBytes == old(stats).rawMissBytes
        + (if hits[k] then 0 else truth((layer, ids[k])).storedBytes)
      ensures stats.hits == old(stats).hits + (if hits[k] then demands[k] else 0)
    {
      hide Weigh, Faithful, FaithfulInbox, PinnedExactly, HitsAre, StagedFor, Distinct;
      NextPlanned(ids, hits, demands, k);
      clock := clock + 1;
      ghost var before := entries;
      rest := staged;
      if hits[k] {
        var p := First(entries, (layer, ids[k]));
        HitIsResident(layer, ids, hits, k);
        if p.None? {
          return Failure(LostHit), rest;
        }
        PinHit(p.value, demands[k]);
        if PinnedExactly(before, layer, ids[..k]) {
          PinOneMore(before, entries[p.value], p.value, layer, ids[..k], ids[k]);
        }
        HitsAfterPin(before, entries, layer, ids, hits, k);
      } else {
        var index := StagedAt(staged, ids[k], 0);
        StagedAtIs(staged, ids[k], 0);
        StagedHas(staged, layer, MissesOf(ids[k..], hits[k..]));
        HitIsResident(layer, ids, hits, k);
        if index.None? {
          return Failure(UnstagedMiss), rest;
        }
        StagedAfterTake(staged, truth, layer, MissesOf(ids[k..], hits[k..]), index.value);
        var value := staged[index.value].1;
        rest := SwapRemove(staged, index.value);
        PushMiss(layer, ids[k], value);
        if PinnedExactly(before, layer, ids[..k]) {
          AppendPinned(before, entries[|before|], layer, ids[..k], ids[k]);
        }
        HitsAfterPush(before, entries[|before|], layer, ids, hits, k);
      }
      r := Success(());
    }

    lemma HitIsResident(layer: nat, ids: seq<nat>, hits: seq<bool>, k: nat)
      requires |hits| == |ids| && k < |ids| && HitsAre(entries, layer, ids, hits, k)
      ensures hits[k] <==> First(entries, (layer, ids[k])).Some?
    {
    }

    lemma StagedHas(staged: seq<(nat, ExpertValue)>, layer: nat, misses: seq<nat>)
      requires StagedFor(staged, truth, layer, misses) && misses != []
      ensures exists i :: 0 <= i < |staged| && staged[i].0 == misses[0]
      ensures forall i :: 0 <= i < |staged| ==> staged[i].1 == truth((layer, staged[i].0))
    {
      assert Stages(staged, misses[0]);
    }

    /** Evict, read and bind one transaction of distinct experts. */
    method Materialize(loader: Loader, layer: nat, ids: seq<nat>, hits: seq<bool>, demands: seq<nat>, missBytes: nat,
                       fanout: Fetch.ReadFanout, schedule: seq<nat>)
        returns (r: Result<(), CacheError>)
      requires Accounted() && loader.truth == truth
      requires Distinct(ids) && |hits| == |demands| == |ids| && HitsAre(entries, layer, ids, hits, 0)
      requires missBytes == MissBytes(truth, layer, ids, hits)
      modifies this`entries, this`residentBytes, this`stats, this`clock, this`promotedBytes
      ensures Accounted()
      ensures r.Failure? ==> r.error in {RouteTooLarge, CannotPin, LoadFailed} && SamePins(old(entries), entries)
      ensures r.Failure? && old(Unpinned(entries)) ==> Unpinned(entries)
      ensures missBytes > capacity <==> r == Failure(RouteTooLarge)
      ensures r == Failure(RouteTooLarge) ==> entries == old(entries)
      ensures r == Failure(CannotPin) ==>
        residentBytes + missBytes > capacity && forall j :: 0 <= j < |entries| ==> !Evictable(entries[j], layer, ids)
      ensures r == Failure(LoadFailed) ==> exists id :: id in ids && loader.Load((layer, id)).None?
      ensures missBytes <= capacity ==>
        var left := RoomMade(utility, old(clock), old(entries), missBytes, capacity, layer, ids);
        entries == if r.Failure? then left else Bound(left, truth, layer, ids, hits, old(clock))
      ensures r.Success? ==> NoneGivenBack(Holdings(old(entries), 0, []), Holdings(entries, layer, ids))
      ensures r.Success? && old(Unpinned(entries)) ==> PinnedExactly(entries, layer, ids)
      ensures r.Success? ==>
        && residentBytes <= capacity && clock == old(clock) + |ids|
        && stats.misses == old(stats).misses + |MissesOf(ids, hits)|
        && stats.rawMissBytes == old(stats).rawMissBytes + missBytes
        && stats.hits == old(stats).hits + HitDemands(hits, demands)
    {
      hide Weigh, RoomMade, Bound, MissBytes, Unpinned, SamePins, NoneGivenBack, PinnedExactly;
      ghost var before := entries;
      SamePinsItself(before);
      if missBytes > capacity {
        return Failure(RouteTooLarge);
      }
      var ok := MakeRoom(missBytes, layer, ids);
      RoomKeepsPins(utility, clock, before, missBytes, capacity, layer, ids);
      if !ok {
        return Failure(CannotPin);
      }
      ghost var left := entries;
      var misses := MissesOf(ids, hits);
      MissesAreDistinct(ids, hits);
      var staged := StageMisses(loader, layer, misses, fanout, schedule);
      if staged.Failure? {
        return Failure(LoadFailed);
      }
      StagedInOrder(staged.value, truth, layer, misses);
      r := BindPlanned(layer, ids, hits, demands, staged.value);
      BindingHolds(before, left, truth, layer, ids, hits, old(clock), 0);
    }

    /** The misses do not fit, even with everything evictable gone. */
    ghost predicate CannotHold(drained: Intake, layer: nat, ids: seq<nat>)
      reads this`utility
    {
      var required := MissBytes(truth, layer, ids, HitMask(drained.entries, layer, ids));
      || required > capacity
      || Weigh(RoomMade(utility, drained.clock, drained.entries, required, capacity, layer, ids), BytesOf)
         + required > capacity
    }

    /** What a successful transaction did: from the drained cache it took the
        residents for hits, made room for the rest, and bound every expert. */
    ghost predicate TransactionIs(drained: Intake, layer: nat, ids: seq<nat>, hits: seq<bool>, missBytes: nat,
                                  after: seq<CachedExpert>)
      reads this`utility
    {
      && |hits| == |ids| && HitsAre(drained.entries, layer, ids, hits, 0)
      && missBytes == MissBytes(truth, layer, ids, hits)
      && after == Bound(RoomMade(utility, drained.clock, drained.entries, missBytes, capacity, layer, ids),
                        truth, layer, ids, hits, drained.clock)
    }

    lemma MaskLength(hits: seq<bool>, missBytes: nat, drained: Intake, layer: nat, ids: seq<nat>)
      requires TransactionIs(drained, layer, ids, hits, missBytes, entries)
      ensures |hits| == |ids| && missBytes == MissBytes(truth, layer, ids, hits)
      ensures HitsAre(drained.entries, layer, ids, hits, 0)
    {
    }

    /** Which of `ids` are resident, then evicts, reads and binds. */
    method PlanAndBind(loader: Loader, layer: nat, ids: seq<nat>, demands: seq<nat>, fanout: Fetch.ReadFanout,
                       schedule: seq<nat>)
        returns (r: Result<(seq<bool>, nat), CacheError>)
      requires Accounted() && loader.truth == truth && Distinct(ids) && |demands| == |ids|
      modifies this`entries, this`residentBytes, this`stats, this`clock, this`promotedBytes
      ensures Accounted()
      ensures r.Failure? ==>
        && r.error in {UnknownExpert, RouteTooLarge, CannotPin, LoadFailed} && SamePins(old(entries), entries)
        && (old(Unpinned(entries)) ==> Unpinned(entries))
        && (r.error == UnknownExpert ==> exists id :: id in ids && loader.StoredBytes((layer, id)).None?)
        && (r.error == LoadFailed ==> exists id :: id in ids && loader.Load((layer, id)).None?)
        && (r.error in {RouteTooLarge, CannotPin} ==> CannotHold(old(Inflow()), layer, ids))
      ensures r.Success? ==>
        && TransactionIs(old(Inflow()), layer, ids, r.value.0, r.value.1, entries)
        && NoneGivenBack(Holdings(old(entries), 0, []), Holdings(entries, layer, ids))
        && (old(Unpinned(entries)) ==> PinnedExactly(entries, layer, ids))
        && residentBytes <= capacity && clock == old(clock) + |ids|
        && stats.misses == old(stats).misses + |MissesOf(ids, r.value.0)|
        && stats.rawMissBytes == old(stats).rawMissBytes + r.value.1
        && stats.hits == old(stats).hits + HitDemands(r.value.0, demands)
    {
      hide Weigh, Faithful, FaithfulInbox, ResidentAll, PinnedAt, RoomMade, Bound, MissBytes,
           PinnedExactly, Unpinned, SamePins, NoneGivenBack;
      SamePinsItself(entries);
      var planned := PlanIds(loader, layer, ids);
      if planned.Failure? {
        return Failure(UnknownExpert);
      }
      var (hits, missBytes) := planned.value;
      assert hits == HitMask(entries, layer, ids);
      var bound := Materialize(loader, layer, ids, hits, demands, missBytes, fanout, schedule);
      if bound.Failure? {
        return Failure(bound.error);
      }
      r := Success((hits, missBytes));
    }

    /** The drain before a plan: no pin is touched. */
    method DrainIdle(demanded: seq<nat>)
      requires Usable() && Idle()
      modifies this`inbox, this`entries, this`residentBytes, this`stats, this`clock, this`drainedBytes
      ensures Usable() && NoneGivenBack(old(Holding()), Holding()) && SamePins(old(entries), entries)
      ensures old(Valid()) <==> old(Unpinned(entries))
      ensures old(Unpinned(entries)) ==> Valid() && Unpinned(entries)
      ensures Inflow() == old(DrainedFor(demanded)) && clock == old(DrainedFor(demanded)).clock && inbox == []
      ensures stats.hits == old(stats).hits && stats.misses == old(stats).misses
      ensures stats.rawMissBytes == old(stats).rawMissBytes
    {
      hide Accounted, Prefetching, PinnedExactly, Unpinned, Held, SamePins, NoneGivenBack, AdmitAll;
      ghost var before := Holding();
      NothingPlanned(entries, 0);
      DrainKeepsPins(Inflow(), inbox, demanded, capacity);
      DrainPrefetchInbox(demanded);
      if Unpinned(before.entries) {
        UnpinnedGrows(before.entries, entries);
      }
      NothingPlanned(entries, 0);
      SamePinsHold(before, entries);
      HeldStays(before, Holding());
    }

    /** The transaction of an idle cache, all but the plan itself. */
    method BindIdle(loader: Loader, layer: nat, ids: seq<nat>, demands: seq<nat>, fanout: Fetch.ReadFanout,
                    schedule: seq<nat>)
        returns (r: Result<(seq<bool>, nat), CacheError>)
      requires Usable() && Idle() && loader.truth == truth && Distinct(ids) && |demands| == |ids|
      modifies this`entries, this`residentBytes, this`stats, this`clock, this`promotedBytes
      ensures Accounted() && (old(Valid()) <==> old(Unpinned(entries)))
      ensures r.Failure? ==>
        && Usable() && NoneGivenBack(old(Holding()), Holding()) && (old(Unpinned(entries)) ==> Valid())
        && r.error in {UnknownExpert, RouteTooLarge, CannotPin, LoadFailed}
        && (r.error == UnknownExpert ==> exists id :: id in ids && loader.StoredBytes((layer, id)).None?)
        && (r.error == LoadFailed ==> exists id :: id in ids && loader.Load((layer, id)).None?)
        && (r.error in {RouteTooLarge, CannotPin} ==> CannotHold(old(Inflow()), layer, ids))
      ensures r.Success? ==>
        && Held(Holdings(entries, layer, ids)) && NoneGivenBack(old(Holding()), Holdings(entries, layer, ids))
        && (old(Unpinned(entries)) ==> PinnedExactly(entries, layer, ids))
        && TransactionIs(old(Inflow()), layer, ids, r.value.0, r.value.1, entries)
        && residentBytes <= capacity && clock == old(clock) + |ids|
        && stats.misses == old(stats).misses + |MissesOf(ids, r.value.0)|
        && stats.rawMissBytes == old(stats).rawMissBytes + r.value.1
        && stats.hits == old(stats).hits + HitDemands(r.value.0, demands)
    {
      hide Accounted, Prefetching, PinnedExactly, Unpinned, Held, SamePins, NoneGivenBack, TransactionIs, CannotHold;
      ghost var before := Holding();
      NothingPlanned(entries, 0);
      r := PlanAndBind(loader, layer, ids, demands, fanout, schedule);
      NothingPlanned(entries, 0);
      if r.Failure? {
        SamePinsHold(before, entries);
        HeldStays(before, Holding());
      } else {
        HeldStays(before, Holdings(entries, layer, ids));
      }
    }

    /** An idle cache takes in what was prefetched, and binds one exact route. */
    method DrainAndBind(loader: Loader, layer: nat, route: RouterResult, fanout: Fetch.ReadFanout, schedule: seq<nat>)
        returns (r: Result<(seq<bool>, nat), CacheError>)
      requires Usable() && Idle() && loader.truth == truth && |route.ids| == |route.weights| == TOP_K
      modifies this`inbox, this`entries, this`residentBytes, this`stats, this`clock, this`drainedBytes,
        this`promotedBytes
      ensures Accounted()
      ensures r.Failure? ==>
        && Usable() && NoneGivenBack(old(Holding()), Holding()) && (old(Valid()) ==> Valid())
        && r.error in {InvalidRoute, UnknownExpert, RouteTooLarge, CannotPin, LoadFailed}
        && (r.error == InvalidRoute <==> !ExactRoute(route))
        && (r.error == UnknownExpert ==> exists id :: id in route.ids && loader.StoredBytes((layer, id)).None?)
        && (r.error == LoadFailed ==> exists id :: id in route.ids && loader.Load((layer, id)).None?)
        && (r.error in {RouteTooLarge, CannotPin} ==> CannotHold(old(DrainedFor(route.ids)), layer, route.ids))
      ensures r.Success? ==>
        && Held(Holdings(entries, layer, route.ids))
           && NoneGivenBack(old(Holding()), Holdings(entries, layer, route.ids))
        && (old(Valid()) ==> PinnedExactly(entries, layer, route.ids))
        && ExactRoute(route) && residentBytes <= capacity && inbox == []
        && TransactionIs(old(DrainedFor(route.ids)), layer, route.ids, r.value.0, r.value.1, entries)
        && clock == old(DrainedFor(route.ids)).clock + TOP_K
        && stats.hits + stats.misses == old(stats.hits + stats.misses) + TOP_K
        && stats.rawMissBytes == old(stats.rawMissBytes) + r.value.1
    {
      hide Accounted, Prefetching, PinnedExactly, Unpinned, Held, SamePins, NoneGivenBack, TransactionIs, CannotHold,
           DrainedFor, ExactRoute, MissBytes, HitDemands, MissesOf, HitsAre, Inflow, Distinct;
      ghost var before := Holding();
      DrainIdle(route.ids);
      ghost var drained, idle := Inflow(), Holding();
      var valid := ValidateRoute(route);
      if !valid {
        return Failure(InvalidRoute);
      }
      ExactIsDistinct(route);
      var demands := seq(TOP_K, _ => 1);
      r := BindIdle(loader, layer, route.ids, demands, fanout, schedule);
      if r.Failure? {
        NoneGivenBackChain(before, idle, Holding());
      } else {
        MaskLength(r.value.0, r.value.1, drained, layer, route.ids);
        HitsAndMisses(route.ids, r.value.0, demands);
        NoneGivenBackChain(before, idle, Holdings(entries, layer, route.ids));
      }
    }

    /** Plans, evicts, reads and pins one exact route, or reports why it cannot. A
        successful preparation leaves the cache within its capacity, although the
        drain before it may have overshot. */
    method PrepareExactRoute(loader: Loader, layer: nat, route: RouterResult, fanout: Fetch.ReadFanout,
                             schedule: seq<nat>)
        returns (r: Result<ExpertLoadPlan, CacheError>)
      requires Usable() && loader.truth == truth && |route.ids| == |route.weights| == TOP_K
      modifies this
      ensures Usable() && NoneGivenBack(old(Holding()), Holding())
      ensures old(Valid()) ==> Valid()
      ensures inFlight == old(inFlight) && workers == old(workers) && utility == old(utility)
      ensures activeBatchPlan == old(activeBatchPlan)
      ensures !old(Idle()) ==> r == Failure(PlanOverlap) && entries == old(entries)
      ensures r.Failure? ==>
        && activePlan == old(activePlan)
        && r.error in {PlanOverlap, InvalidRoute, UnknownExpert, RouteTooLarge, CannotPin, LoadFailed}
        && (r.error == PlanOverlap <==> !old(Idle()))
        && (r.error == InvalidRoute <==> old(Idle()) && !ExactRoute(route))
        && (r.error == UnknownExpert ==> exists id :: id in route.ids && loader.StoredBytes((layer, id)).None?)
        && (r.error == LoadFailed ==> exists id :: id in route.ids && loader.Load((layer, id)).None?)
        && (r.error in {RouteTooLarge, CannotPin} ==>
              CannotHold(old(DrainedFor(route.ids)), layer, route.ids))
      ensures r.Success? ==>
        && ExactRoute(route) && activePlan == Some(r.value)
        && r.value.layer == layer && r.value.route == route
        && residentBytes <= capacity
        && TransactionIs(old(DrainedFor(route.ids)), layer, route.ids, r.value.hits, r.value.missBytes,
                         entries)
        && clock == old(DrainedFor(route.ids)).clock + TOP_K
        && inbox == []
        && stats.hits + stats.misses == old(stats.hits + stats.misses) + TOP_K
        && stats.rawMissBytes == old(stats.rawMissBytes) + r.value.missBytes
      ensures nextPlanId == old(nextPlanId) + (if r.Success? then 1 else 0)
        && (r.Success? ==> r.value.planId == old(nextPlanId))
    {
      hide Accounted, Prefetching, PinnedExactly, Held, NoneGivenBack, TransactionIs, CannotHold, DrainedFor,
           ExactRoute;
      NothingGivenBack(Holding());
      if activePlan.Some? || activeBatchPlan.Some? {
        return Failure(PlanOverlap);
      }
      var bound := DrainAndBind(loader, layer, route, fanout, schedule);
      if bound.Failure? {
        return Failure(bound.error);
      }
      var plan := ExpertLoadPlan(nextPlanId, layer, route, bound.value.0, bound.value.1);
      nextPlanId := nextPlanId + 1;
      activePlan := Some(plan);
      r := Success(plan);
    }

    /** The binding a routed computation uses. Inside its plan it always finds the
        expert, and it is the file's. */
    method PlannedExpert(plan: ExpertLoadPlan, expert: nat) returns (r: Result<ExpertValue, CacheError>)
      requires Usable()
      ensures if activePlan == Some(plan) && expert in plan.route.ids
        then r == Success(truth((plan.layer, expert)))
        else r == Failure(OutsidePlan)
    {
      if activePlan != Some(plan) || expert !in plan.route.ids {
        return Failure(OutsidePlan);
      }
      HasPin(plan.layer, expert);
      r := FindPinned(plan.layer, expert);
    }

    /** A planned expert has a pin, wherever its pinned entry stands. */
    lemma HasPin(layer: nat, expert: nat)
      requires Usable() && layer == PlannedLayer() && expert in PlannedIds()
      ensures PinsAt(entries, (layer, expert)) > 0
    {
      assert 0 <= Surplus(Holding(), (layer, expert));
    }

    method FindPinned(layer: nat, expert: nat) returns (r: Result<ExpertValue, CacheError>)
      requires Faithful(entries, truth) && PinsAt(entries, (layer, expert)) > 0
      ensures r == Success(truth((layer, expert)))
    {
      hide PinsAt;
      PinnedSomewhere(entries, (layer, expert));
      for i := 0 to |entries|
        invariant exists p :: i <= p < |entries| && entries[p].Key() == (layer, expert) && entries[p].pinCount > 0
      {
        if entries[i].layer == layer && entries[i].expert == expert && entries[i].pinCount > 0 {
          return Success(entries[i].value);
        }
      }
      return Failure(MissingBinding);
    }

    /** Only pin counts differ. */
    ghost predicate ReleasedFrom(before: seq<CachedExpert>, after: seq<CachedExpert>) {
      |after| == |before| && forall i :: 0 <= i < |after| ==> after[i] == before[i].(pinCount := after[i].pinCount)
    }

    /** Gives one pin of each expert's first entry back. With the plan's pins in
        order that leaves none, and the lost-pin error is unreachable. */
    method ReleasePins(layer: nat, ids: seq<nat>) returns (r: Result<(), CacheError>)
      requires Accounted()
      modifies this`entries
      ensures Accounted() && ReleasedFrom(old(entries), entries)
      ensures r == if Released(old(entries), layer, ids).Some? then Success(()) else Failure(LostPin)
      ensures r.Success? ==> entries == Released(old(entries), layer, ids).value
      ensures PinnedExactly(old(entries), layer, ids) && Distinct(ids) ==> r.Success? && Unpinned(entries)
    {
      hide Weigh, Faithful, FaithfulInbox, PinnedExactly;
      if PinnedExactly(entries, layer, ids) && Distinct(ids) {
        ReleasedIsUnpinned(entries, layer, ids);
      }
      assert ids[0..] == ids;
      for k := 0 to |ids|
        invariant Accounted() && ReleasedFrom(old(entries), entries)
        invariant Released(entries, layer, ids[k..]) == Released(old(entries), layer, ids)
      {
        assert ids[k..][0] == ids[k] && ids[k..][1..] == ids[k + 1..];
        var p := First(entries, (layer, ids[k]));
        if p.None? {
          return Failure(LostPin);
        }
        SetPin(p.value, SaturatingSub(entries[p.value].pinCount, 1));
      }
      r := Success(());
    }

    method SetPin(p: nat, pinCount: nat)
      requires Accounted() && p < |entries|
      modifies this`entries
      ensures Accounted() && SameKeys(entries, old(entries))
      ensures entries == WithPins(old(entries), p, pinCount)
    {
      hide Weigh;
      var entry := entries[p].(pinCount := pinCount);
      WeighUpdate(entries, p, entry, BytesOf);
      WeighUpdate(entries, p, entry, ProbationBytesOf);
      entries := entries[p := entry];
    }

    /** Ends the active exact route; afterwards nothing is pinned. */
    method FinishExactRoute(plan: ExpertLoadPlan) returns (r: Result<(), CacheError>)
      requires Accounted()
      modifies this`entries, this`activePlan
      ensures Accounted() && ReleasedFrom(old(entries), entries)
      ensures old(activePlan) != Some(plan) ==>
        r == Failure(NotActive) && activePlan == old(activePlan) && entries == old(entries)
      ensures old(activePlan) == Some(plan) ==>
        var released := Released(old(entries), plan.layer, plan.route.ids);
        && r == (if released.Some? then Success(()) else Failure(LostPin))
        && (released.Some? ==> activePlan == None && entries == released.value)
      ensures old(Usable()) ==>
        && Usable() && NoneGivenBack(old(Holding()), Holding())
        && (old(activePlan) == Some(plan) ==> r.Success? && Idle())
      ensures old(Valid()) ==>
        && Valid() && (old(activePlan) == Some(plan) ==> r.Success? && Idle() && Unpinned(entries))
    {
      hide Accounted, Prefetching, PinnedExactly, Released, Held, SamePins, NoneGivenBack;
      ghost var before := Holding();
      SamePinsItself(entries);
      SamePinsHold(before, entries);
      if activePlan != Some(plan) {
        return Failure(NotActive);
      }
      if Held(before) && before.ids == plan.route.ids && before.layer == plan.layer {
        HeldReleases(before);
      }
      r := ReleasePins(plan.layer, plan.route.ids);
      if r.Failure? {
        return Failure(LostPin);
      }
      activePlan := None;
      NothingPlanned(entries, PlannedLayer());
      if Held(before) && before.ids == plan.route.ids && before.layer == plan.layer && Idle() {
        HeldStays(before, Holding());
      }
    }

    // ----------------------------------------------------------------------
    // Batch routes

    /** The distinct experts of a chunk of routes, in first-demand order. */
    method DistinctExperts(routes: seq<RouterResult>) returns (distinct: seq<nat>)
      ensures Distinct(distinct)
      ensures forall id :: id in distinct <==> exists i :: 0 <= i < |routes| && id in routes[i].ids
    {
      distinct := [];
      for i := 0 to |routes|
        invariant Distinct(distinct)
        invariant forall id :: id in distinct <==> exists j :: 0 <= j < i && id in routes[j].ids
      {
        var ids := routes[i].ids;
        ghost var before := distinct;
        for k := 0 to |ids|
          invariant Distinct(distinct)
          invariant forall id :: id in distinct <==> id in before || id in ids[..k]
        {
          assert ids[..k + 1] == ids[..k] + [ids[k]];
          if ids[k] !in distinct {
            distinct := distinct + [ids[k]];
          }
        }
        assert ids[..|ids|] == ids;
      }
    }

    method ValidateRoutes(routes: seq<RouterResult>) returns (ok: bool)
      requires forall i :: 0 <= i < |routes| ==> |routes[i].ids| == |routes[i].weights| == TOP_K
      ensures ok <==> forall i :: 0 <= i < |routes| ==> ExactRoute(routes[i])
    {
      for i := 0 to |routes|
        invariant forall j :: 0 <= j < i ==> ExactRoute(routes[j])
      {
        var valid := ValidateRoute(routes[i]);
        if !valid {
          return false;
        }
      }
      return true;
    }

    /** Plans, evicts, reads and pins the union of several exact routes. */
    method PrepareBatchRoute(loader: Loader, layer: nat, routes: seq<RouterResult>, fanout: Fetch.ReadFanout,
                             schedule: seq<nat>)
        returns (r: Result<BatchExpertPlan, CacheError>, ghost hits: seq<bool>)
      requires Usable() && loader.truth == truth
      requires forall i :: 0 <= i < |routes| ==> |routes[i].ids| == |routes[i].weights| == TOP_K
      modifies this
      ensures Usable() && NoneGivenBack(old(Holding()), Holding())
      ensures old(Valid()) ==> Valid()
      ensures inFlight == old(inFlight) && workers == old(workers) && utility == old(utility)
      ensures activePlan == old(activePlan)
      ensures !old(Idle()) ==> r == Failure(PlanOverlap)
      ensures r.Failure? ==>
        && activeBatchPlan == old(activeBatchPlan)
        && r.error in {PlanOverlap, InvalidRoute, UnknownExpert, RouteTooLarge, CannotPin, LoadFailed}
      ensures r.Success? ==>
        && activeBatchPlan == Some(r.value) && r.value.layer == layer && r.value.routes == routes
        && (forall i :: 0 <= i < |routes| ==> ExactRoute(routes[i]))
        && Distinct(r.value.distinct)
        && (forall id :: id in r.value.distinct <==> exists i :: 0 <= i < |routes| && id in routes[i].ids)
        && residentBytes <= capacity
        && |hits| == |r.value.distinct|
        && TransactionIs(old(Inflow()), layer, r.value.distinct, hits,
           MissBytes(truth, layer, r.value.distinct, hits), entries)
      ensures nextPlanId == old(nextPlanId) + (if r.Success? then 1 else 0)
        && (r.Success? ==> r.value.planId == old(nextPlanId))
    {
      hide Accounted, Prefetching, PinnedExactly, Unpinned, Held, SamePins, NoneGivenBack, TransactionIs, CannotHold,
           MissBytes, ExactRoute, HitDemands, MissesOf, HitsAre, ResidentDemands, Demanding;
      hits := [];
      NothingGivenBack(Holding());
      if activePlan.Some? || activeBatchPlan.Some? {
        return Failure(PlanOverlap), hits;
      }
      var valid := ValidateRoutes(routes);
      if !valid {
        return Failure(InvalidRoute), hits;
      }
      var distinct := DistinctExperts(routes);
      var demands := Demanding(distinct, routes);
      var bound := BindIdle(loader, layer, distinct, demands, fanout, schedule);
      if bound.Failure? {
        return Failure(bound.error), hits;
      }
      hits := bound.value.0;
      MaskLength(hits, bound.value.1, old(Inflow()), layer, distinct);
      ChunkHits(old(entries), layer, distinct, hits, routes);
      var plan := BatchExpertPlan(nextPlanId, layer, distinct, routes);
      nextPlanId := nextPlanId + 1;
      activeBatchPlan := Some(plan);
      r := Success(plan);
    }

    method PlannedBatchExpert(plan: BatchExpertPlan, expert: nat) returns (r: Result<ExpertValue, CacheError>)
      requires Usable()
      ensures if activeBatchPlan == Some(plan) && expert in plan.distinct
        then r == Success(truth((plan.layer, expert)))
        else r == Failure(OutsidePlan)
    {
      if activeBatchPlan != Some(plan) || expert !in plan.distinct {
        return Failure(OutsidePlan);
      }
      HasPin(plan.layer, expert);
      r := FindPinned(plan.layer, expert);
    }

    method FinishBatchRoute(plan: BatchExpertPlan) returns (r: Result<(), CacheError>)
      requires Accounted()
      modifies this`entries, this`activeBatchPlan
      ensures Accounted() && ReleasedFrom(old(entries), entries)
      ensures old(activeBatchPlan) != Some(plan) ==>
        r == Failure(NotActive) && activeBatchPlan == old(activeBatchPlan) && entries == old(entries)
      ensures old(activeBatchPlan) == Some(plan) ==>
        var released := Released(old(entries), plan.layer, plan.distinct);
        && r == (if released.Some? then Success(()) else Failure(LostPin))
        && (released.Some? ==> activeBatchPlan == None && entries == released.value)
      ensures old(Usable()) ==>
        && Usable() && NoneGivenBack(old(Holding()), Holding())
        && (old(activeBatchPlan) == Some(plan) ==> r.Success? && Idle())
      ensures old(Valid()) ==>
        && Valid() && (old(activeBatchPlan) == Some(plan) ==> r.Success? && Idle() && Unpinned(entries))
    {
      hide Accounted, Prefetching, PinnedExactly, Released, Held, SamePins, NoneGivenBack;
      ghost var before := Holding();
      SamePinsItself(entries);
      SamePinsHold(before, entries);
      if activeBatchPlan != Some(plan) {
        return Failure(NotActive);
      }
      if Held(before) && before.ids == plan.distinct && before.layer == plan.layer {
        HeldReleases(before);
      }
      r := ReleasePins(plan.layer, plan.distinct);
      if r.Failure? {
        return Failure(LostPin);
      }
      activeBatchPlan := None;
      NothingPlanned(entries, PlannedLayer());
      if Held(before) && before.ids == plan.distinct && before.layer == plan.layer && Idle() {
        HeldStays(before, Holding());
      }
    }

    // ----------------------------------------------------------------------
    // Single experts outside a transaction

    /** The counters after `n` evictions; the speculative bytes wasted are those of `now`. */
    function Evicted(before: CacheStats, n: nat, now: CacheStats): CacheStats {
      before.(evictions := before.evictions + n, prefetchWastedBytes := now.prefetchWastedBytes)
    }

    function Missed(before: CacheStats, bytes: nat): CacheStats {
      before.(misses := before.misses + 1, rawMissBytes := before.rawMissBytes + bytes)
    }

    /** The slots a single load evicts from, in order: none on a hit, or when the
        expert is unknown or larger than the cache. */
    ghost function LoadVictims(loader: Loader, layer: nat, expert: nat, before: seq<CachedExpert>,
                               now: nat): (victims: seq<nat>)
      reads this`utility
      ensures Slots(|before|, victims) && Spares(before, victims)
    {
      var bytes := loader.StoredBytes((layer, expert));
      if First(before, (layer, expert)).Some? || bytes.None? || bytes.value > capacity then []
      else
        VictimsSparePinned(utility, now, before, bytes.value, capacity, layer, []);
        Victims(utility, now, before, bytes.value, capacity, layer, [])
    }

    /** Why an absent expert cannot be loaded, if it cannot. */
    ghost function LoadError(loader: Loader, layer: nat, expert: nat, before: seq<CachedExpert>,
                             now: nat): Option<CacheError>
      reads this`utility
    {
      match loader.StoredBytes((layer, expert))
      case None => Some(UnknownExpert)
      case Some(bytes) =>
        if bytes > capacity then Some(RouteTooLarge)
        else if Weigh(RemoveAll(before, LoadVictims(loader, layer, expert, before, now)), BytesOf) + bytes > capacity
          then Some(CannotPin)
        else if loader.Load((layer, expert)).None? then Some(LoadFailed)
        else None
    }

    lemma ValueIsTrue(p: nat)
      requires Accounted() && p < |entries|
      ensures entries[p].value == truth(entries[p].Key())
    {
    }

    /** One expert, loaded if absent. Beside an active plan the plan's pins survive
        if and only if no eviction moves a surviving unpinned copy of a planned
        expert in front of its pinned entry. */
    method GetOrLoad(loader: Loader, layer: nat, expert: nat) returns (r: Result<ExpertValue, CacheError>)
      requires Accounted() && loader.truth == truth
      modifies this`entries, this`residentBytes, this`stats, this`clock
      ensures Accounted() && clock == old(clock) + 1
      ensures old(Usable()) ==> Usable() && NoneGivenBack(old(Holding()), Holding())
      ensures var victims := LoadVictims(loader, layer, expert, old(entries), clock);
        old(Valid()) ==> (Valid() <==> !PinsMisplaced(old(entries), victims))
      ensures old(Valid()) && NoCopies(old(entries)) ==> Valid()
      ensures UniqueKeys(old(entries)) ==> UniqueKeys(entries)
      ensures r.Failure? <==>
        First(old(entries), (layer, expert)).None? && LoadError(loader, layer, expert, old(entries), clock).Some?
      ensures r.Failure? ==> Some(r.error) == LoadError(loader, layer, expert, old(entries), clock)
      ensures r.Success? ==> r.value == truth((layer, expert)) && First(entries, (layer, expert)).Some?
      ensures var found := First(old(entries), (layer, expert));
        var victims := LoadVictims(loader, layer, expert, old(entries), clock);
        var left := RemoveAll(old(entries), victims);
        && (found.Some? ==>
             (r.Success? && found.value < |old(entries)|
              && entries == old(entries)[found.value := Touched(old(entries)[found.value], clock)]
              && stats == old(stats).(hits := old(stats).hits + 1)))
        && (r.Failure? ==> (entries == left && stats == Evicted(old(stats), |victims|, stats)))
        && (found.None? && r.Success? ==>
             (residentBytes <= capacity
              && stats == Missed(Evicted(old(stats), |victims|, stats), r.value.storedBytes)
              && entries == left + [CachedExpert(layer, expert, 1, clock, 0, false, clock, r.value)]))
    {
      hide Accounted, First, UniqueKeys, PinnedExactly, PinsMisplaced, RemoveAll, Victims, NoCopies, LoadError,
           Prefetching, Held, SamePins, NoneGivenBack, LoadVictims, Slots, Spares, Evicted, Missed, Touched;
      ghost var held, before, now := Holding(), entries, clock + 1;
      ghost var victims := LoadVictims(loader, layer, expert, before, now);
      r := LoadEntry(loader, layer, expert);
      SamePinsHold(held, entries);
      if Held(held) {
        HeldStays(held, Holding());
      }
      if PinnedExactly(before, PlannedLayer(), PlannedIds()) {
        LoadedPins(loader, layer, expert, before, entries, now, PlannedLayer(), PlannedIds());
        if NoCopies(before) {
          NoCopiesNoneMisplaced(before, victims);
        }
      }
    }

    /** What a load may make of the entries. */
    ghost predicate LoadedFrom(loader: Loader, layer: nat, expert: nat, before: seq<CachedExpert>,
                               after: seq<CachedExpert>, now: nat)
      reads this`utility
    {
      var left := RemoveAll(before, LoadVictims(loader, layer, expert, before, now));
      match First(before, (layer, expert))
      case Some(p) => after == before[p := Touched(before[p], now)]
      case None =>
        after == left
        || exists value :: after == left + [CachedExpert(layer, expert, 1, now, 0, false, now, value)]
    }

    lemma LoadedPins(loader: Loader, layer: nat, expert: nat, before: seq<CachedExpert>, after: seq<CachedExpert>,
                     now: nat, plan: nat, ids: seq<nat>)
      requires PinnedExactly(before, plan, ids) && LoadedFrom(loader, layer, expert, before, after, now)
      ensures PinnedExactly(after, plan, ids) <==>
        !PinsMisplaced(before, LoadVictims(loader, layer, expert, before, now))
    {
      hide First, PinnedExactly, PinsMisplaced, RemoveAll, Slots, Spares;
      var victims := LoadVictims(loader, layer, expert, before, now);
      match First(before, (layer, expert))
      case Some(p) =>
        NothingMoved(before, plan, ids);
        SameKeysSamePins(before, after, plan, ids);
      case None =>
        hide LoadVictims;
        var left := RemoveAll(before, victims);
        if after == left {
          LoadKeepsPinsIff(before, victims, [], plan, ids);
          assert left + [] == left;
        } else {
          var value :| after == left + [CachedExpert(layer, expert, 1, now, 0, false, now, value)];
          LoadKeepsPinsIff(before, victims, [CachedExpert(layer, expert, 1, now, 0, false, now, value)], plan, ids);
        }
    }

    /** The load itself. */
    method LoadEntry(loader: Loader, layer: nat, expert: nat) returns (r: Result<ExpertValue, CacheError>)
      requires Accounted() && loader.truth == truth
      modifies this`entries, this`residentBytes, this`stats, this`clock
      ensures Accounted() && clock == old(clock) + 1 && SamePins(old(entries), entries)
      ensures LoadedFrom(loader, layer, expert, old(entries), entries, clock)
      ensures UniqueKeys(old(entries)) ==> UniqueKeys(entries)
      ensures r.Failure? <==>
        First(old(entries), (layer, expert)).None? && LoadError(loader, layer, expert, old(entries), clock).Some?
      ensures r.Failure? ==> Some(r.error) == LoadError(loader, layer, expert, old(entries), clock)
      ensures r.Success? ==> r.value == truth((layer, expert)) && First(entries, (layer, expert)).Some?
      ensures var found := First(old(entries), (layer, expert));
        var victims := LoadVictims(loader, layer, expert, old(entries), clock);
        var left := RemoveAll(old(entries), victims);
        && (found.Some? ==>
             (r.Success? && found.value < |old(entries)|
              && entries == old(entries)[found.value := Touched(old(entries)[found.value], clock)]
              && stats == old(stats).(hits := old(stats).hits + 1)))
        && (r.Failure? ==> (entries == left && stats == Evicted(old(stats), |victims|, stats)))
        && (found.None? && r.Success? ==>
             (residentBytes <= capacity
              && stats == Missed(Evicted(old(stats), |victims|, stats), r.value.storedBytes)
              && entries == left + [CachedExpert(layer, expert, 1, clock, 0, false, clock, r.value)]))
    {
      hide Accounted, First, UniqueKeys, RemoveAll, Victims, LoadError, SamePins, LoadVictims, Slots, Spares;
      clock := clock + 1;
      ghost var before := entries;
      var found := First(entries, (layer, expert));
      FirstIs(entries, (layer, expert));
      if found.Some? {
        ValueIsTrue(found.value);
        TouchEntry(found.value);
        FirstSameKeys(entries, before, (layer, expert));
        return Success(entries[found.value].value);
      }
      r := LoadMissing(loader, layer, expert);
      if r.Failure? {
        ghost var left := RemoveAll(before, LoadVictims(loader, layer, expert, before, clock));
        assert left + [] == left;
      }
    }

    /** The rest of a single load, for an absent expert. */
    method LoadMissing(loader: Loader, layer: nat, expert: nat) returns (r: Result<ExpertValue, CacheError>)
      requires Accounted() && loader.truth == truth && First(entries, (layer, expert)).None?
      modifies this`entries, this`residentBytes, this`stats
      ensures Accounted() && SamePins(old(entries), entries)
      ensures UniqueKeys(old(entries)) ==> UniqueKeys(entries)
      ensures LoadError(loader, layer, expert, old(entries), clock) == if r.Failure? then Some(r.error) else None
      ensures r.Success? ==>
        r.value == truth((layer, expert)) && First(entries, (layer, expert)).Some? && residentBytes <= capacity
      ensures var victims := LoadVictims(loader, layer, expert, old(entries), clock);
        var left, evicted := RemoveAll(old(entries), victims), Evicted(old(stats), |victims|, stats);
        && stats == (if r.Failure? then evicted else Missed(evicted, r.value.storedBytes))
        && entries == left + if r.Failure? then []
           else [CachedExpert(layer, expert, 1, clock, 0, false, clock, r.value)]
    {
      hide Weigh, First, UniqueKeys, Faithful, FaithfulInbox, RemoveAll, Victims, Coldest, SamePins;
      ghost var before := entries;
      SamePinsItself(before);
      var key := (layer, expert);
      var required := loader.StoredBytes(key);
      NothingRemoved(entries);
      RemovesThatMany(entries, LoadVictims(loader, layer, expert, entries, clock));
      if required.None? {
        return Failure(UnknownExpert);
      }
      if required.value > capacity {
        return Failure(RouteTooLarge);
      }
      var ok := EvictFor(required.value, layer, expert);
      RoomKeepsPins(utility, clock, before, required.value, capacity, layer, []);
      if !ok {
        return Failure(CannotPin);
      }
      var value := loader.Load(key);
      if value.None? {
        return Failure(LoadFailed);
      }
      stats := stats.(misses := stats.misses + 1, rawMissBytes := stats.rawMissBytes + required.value);
      var entry := CachedExpert(layer, expert, 1, clock, 0, false, clock, value.value);
      FirstAppend(entries, entry, key);
      AppendKeepsUnique(entries, entry);
      AppendUnpinned(entries, entry);
      SamePinsChain(before, entries, entries + [entry]);
      PushEntry(entry);
      r := Success(value.value);
    }

    lemma NothingRemoved(before: seq<CachedExpert>)
      ensures RemoveAll(before, []) == before
    {
    }

    /** Evicts unpinned entries until `required` more bytes fit. */
    method EvictFor(required: nat, layer: nat, expert: nat) returns (ok: bool)
      requires Accounted() && First(entries, (layer, expert)).None?
      modifies this`entries, this`residentBytes, this`stats
      ensures Accounted() && First(entries, (layer, expert)).None?
      ensures entries == RoomMade(utility, clock, old(entries), required, capacity, layer, [])
      ensures ok <==> residentBytes + required <= capacity
      ensures |entries| <= |old(entries)| && stats == Evicted(old(stats), |old(entries)| - |entries|, stats)
      ensures UniqueKeys(old(entries)) ==> UniqueKeys(entries)
    {
      hide Weigh, First, UniqueKeys, Faithful, FaithfulInbox, RoomMade, Coldest;
      while residentBytes + required > capacity
        invariant |entries| <= |old(entries)| && stats == Evicted(old(stats), |old(entries)| - |entries|, stats)
        invariant Accounted() && First(entries, (layer, expert)).None?
        invariant RoomMade(utility, clock, entries, required, capacity, layer, [])
               == RoomMade(utility, clock, old(entries), required, capacity, layer, [])
        invariant UniqueKeys(old(entries)) ==> UniqueKeys(entries)
        decreases |entries|
      {
        ghost var before := entries;
        RoomMadeStep(utility, clock, entries, required, capacity, layer, []);
        var found := EvictColdestExcluding(layer, []);
        if !found {
          return false;
        }
        ghost var victim := ColdestSlot(utility, clock, before, layer, []).value;
        FirstIs(before, (layer, expert));
        FirstSurvives(before, victim, (layer, expert));
        EvictionKeepsUnique(before, victim);
      }
      RoomMadeStep(utility, clock, entries, required, capacity, layer, []);
      ok := true;
    }

    function Touched(e: CachedExpert, clock: nat): CachedExpert {
      e.(frequency := e.frequency + 1, lastUsed := clock)
    }

    method TouchEntry(p: nat)
      requires Accounted() && p < |entries|
      modifies this`entries, this`stats
      ensures Accounted() && SameKeys(entries, old(entries)) && SamePins(old(entries), entries)
      ensures entries == old(entries)[p := Touched(old(entries)[p], clock)]
      ensures stats == old(stats).(hits := old(stats).hits + 1)
      ensures forall l, ids :: PinnedExactly(old(entries), l, ids) ==> PinnedExactly(entries, l, ids)
      ensures UniqueKeys(old(entries)) ==> UniqueKeys(entries)
    {
      hide Weigh, SamePins;
      var entry := entries[p].(frequency := entries[p].frequency + 1, lastUsed := clock);
      UpdateKeepsPins(entries, p, entry);
      WeighUpdate(entries, p, entry, BytesOf);
      WeighUpdate(entries, p, entry, ProbationBytesOf);
      forall l, ids | PinnedExactly(entries, l, ids) ensures PinnedExactly(entries[p := entry], l, ids) {
        SameKeysSamePins(entries, entries[p := entry], l, ids);
      }
      entries := entries[p := entry];
      stats := stats.(hits := stats.hits + 1);
    }
  }

  // ------------------------------------------------------------------------
  // Keys that stay unique

  ghost predicate UniqueKeys(entries: seq<CachedExpert>) {
    forall i, j :: 0 <= i < j < |entries| ==> entries[i].Key() != entries[j].Key()
  }

  lemma EvictionKeepsUnique(entries: seq<CachedExpert>, v: nat)
    requires v < |entries|
    ensures UniqueKeys(entries) ==> UniqueKeys(SwapRemove(entries, v))
  {
  }

  lemma AppendKeepsUnique(entries: seq<CachedExpert>, e: CachedExpert)
    requires First(entries, e.Key()).None?
    ensures UniqueKeys(entries) ==> UniqueKeys(entries + [e])
  {
    FirstIs(entries, e.Key());
  }

  lemma SameKeysSamePins(a: seq<CachedExpert>, b: seq<CachedExpert>, layer: nat, ids: seq<nat>)
    requires SameKeys(a, b) && PinnedExactly(a, layer, ids)
    requires forall i :: 0 <= i < |a| ==> a[i].pinCount == b[i].pinCount
    ensures PinnedExactly(b, layer, ids)
  {
    forall key ensures First(a, key) == First(b, key) {
      FirstSameKeys(a, b, key);
    }
    forall i | 0 <= i < |b| ensures PinnedAt(b, layer, ids, i) {
      assert PinnedAt(a, layer, ids, i) && a[i].Key() == b[i].Key();
    }
  }

  /** How many routes of the chunk ask for an expert. */
  function DemandCount(routes: seq<RouterResult>, id: nat): nat {
    if routes == [] then 0 else (if id in routes[0].ids then 1 else 0) + DemandCount(routes[1..], id)
  }

  lemma UnpinnedGrows(before: seq<CachedExpert>, after: seq<CachedExpert>)
    requires Unpinned(before) && before <= after
    requires forall i :: |before| <= i < |after| ==> after[i].pinCount == 0
    ensures Unpinned(after)
  {
  }

  lemma ExactIsDistinct(route: RouterResult)
    requires ExactRoute(route)
    ensures Distinct(route.ids) && |route.ids| == TOP_K
  {
  }

  lemma {:induction false} HitsAndMisses(ids: seq<nat>, hits: seq<bool>, demands: seq<nat>)
    requires |hits| == |demands| == |ids| && forall i :: 0 <= i < |demands| ==> demands[i] == 1
    ensures HitDemands(hits, demands) + |MissesOf(ids, hits)| == |ids|
  {
    if ids != [] {
      HitsAndMisses(ids[1..], hits[1..], demands[1..]);
    }
  }

  /** The mask says which experts from `from` on a lookup finds. */
  ghost predicate HitsAre(entries: seq<CachedExpert>, layer: nat, ids: seq<nat>, hits: seq<bool>, from: nat)
    requires |hits| == |ids|
  {
    forall i :: from <= i < |ids| ==> hits[i] == First(entries, (layer, ids[i])).Some?
  }

  function HitDemands(hits: seq<bool>, demands: seq<nat>): nat
    requires |hits| == |demands|
  {
    if hits == [] then 0 else (if hits[0] then demands[0] else 0) + HitDemands(hits[1..], demands[1..])
  }

  /** How many of the experts are resident. */
  function ResidentIn(entries: seq<CachedExpert>, layer: nat, ids: seq<nat>): nat {
    if ids == [] then 0
    else (if First(entries, (layer, ids[0])).Some? then 1 else 0) + ResidentIn(entries, layer, ids[1..])
  }

  /** How many demands of a chunk of routes are for resident experts. */
  function ResidentDemands(entries: seq<CachedExpert>, layer: nat, routes: seq<RouterResult>): nat {
    if routes == [] then 0
    else ResidentIn(entries, layer, routes[0].ids) + ResidentDemands(entries, layer, routes[1..])
  }

  function Demanding(distinct: seq<nat>, routes: seq<RouterResult>): (r: seq<nat>)
    ensures |r| == |distinct|
  {
    seq(|distinct|, i requires 0 <= i < |distinct| => DemandCount(routes, distinct[i]))
  }

  function Among(distinct: seq<nat>, ids: seq<nat>): (r: seq<nat>)
    ensures |r| == |distinct|
  {
    seq(|distinct|, i requires 0 <= i < |distinct| => if distinct[i] in ids then 1 else 0)
  }

  lemma {:induction false} HitDemandsAdd(hits: seq<bool>, a: seq<nat>, b: seq<nat>, c: seq<nat>)
    requires |a| == |b| == |c| == |hits| && forall i :: 0 <= i < |c| ==> c[i] == a[i] + b[i]
    ensures HitDemands(hits, c) == HitDemands(hits, a) + HitDemands(hits, b)
  {
    if hits != [] {
      HitDemandsAdd(hits[1..], a[1..], b[1..], c[1..]);
    }
  }

  lemma {:induction false} NobodyDemands(hits: seq<bool>, demands: seq<nat>)
    requires |demands| == |hits| && forall i :: 0 <= i < |demands| ==> demands[i] == 0
    ensures HitDemands(hits, demands) == 0
  {
    if hits != [] {
      NobodyDemands(hits[1..], demands[1..]);
    }
  }

  lemma {:induction false} OneDemanded(entries: seq<CachedExpert>, layer: nat, distinct: seq<nat>, hits: seq<bool>,
                                       e: nat)
    requires Distinct(distinct) && |hits| == |distinct| && HitsAre(entries, layer, distinct, hits, 0)
    ensures HitDemands(hits, Among(distinct, [e]))
         == if e in distinct && First(entries, (layer, e)).Some? then 1 else 0
  {
    hide First;
    if distinct != [] {
      assert Among(distinct, [e])[1..] == Among(distinct[1..], [e]);
      OneDemanded(entries, layer, distinct[1..], hits[1..], e);
      assert distinct == [distinct[0]] + distinct[1..] && distinct[0] !in distinct[1..];
      assert hits[0] == First(entries, (layer, distinct[0])).Some?;
    }
  }

  lemma {:induction false} RouteDemanded(entries: seq<CachedExpert>, layer: nat, distinct: seq<nat>, hits: seq<bool>,
                                         ids: seq<nat>)
    requires Distinct(distinct) && |hits| == |distinct| && HitsAre(entries, layer, distinct, hits, 0)
    requires Distinct(ids) && forall id :: id in ids ==> id in distinct
    ensures HitDemands(hits, Among(distinct, ids)) == ResidentIn(entries, layer, ids)
  {
    hide First, HitDemands, HitsAre;
    if ids == [] {
      NobodyDemands(hits, Among(distinct, []));
    } else {
      var rest := ids[1..];
      RouteDemanded(entries, layer, distinct, hits, rest);
      OneDemanded(entries, layer, distinct, hits, ids[0]);
      assert ids == [ids[0]] + rest && ids[0] !in rest;
      HitDemandsAdd(hits, Among(distinct, [ids[0]]), Among(distinct, rest), Among(distinct, ids));
    }
  }

  /** Counting a chunk's hits expert by expert is counting them route by route. */
  lemma {:induction false} HitsByRoute(entries: seq<CachedExpert>, layer: nat, distinct: seq<nat>, hits: seq<bool>,
                                       routes: seq<RouterResult>)
    requires Distinct(distinct) && |hits| == |distinct| && HitsAre(entries, layer, distinct, hits, 0)
    requires forall i :: 0 <= i < |routes| ==>
      Distinct(routes[i].ids) && forall id :: id in routes[i].ids ==> id in distinct
    ensures HitDemands(hits, Demanding(distinct, routes)) == ResidentDemands(entries, layer, routes)
  {
    hide HitDemands, HitsAre, ResidentIn;
    if routes == [] {
      NobodyDemands(hits, Demanding(distinct, []));
    } else {
      HitsByRoute(entries, layer, distinct, hits, routes[1..]);
      RouteDemanded(entries, layer, distinct, hits, routes[0].ids);
      HitDemandsAdd(hits, Among(distinct, routes[0].ids), Demanding(distinct, routes[1..]),
        Demanding(distinct, routes));
    }
  }

  lemma ChunkHits(entries: seq<CachedExpert>, layer: nat, distinct: seq<nat>, hits: seq<bool>,
                  routes: seq<RouterResult>)
    requires Distinct(distinct) && |hits| == |distinct| && HitsAre(entries, layer, distinct, hits, 0)
    requires forall i :: 0 <= i < |routes| ==> ExactRoute(routes[i])
    requires forall id :: id in distinct <==> exists i :: 0 <= i < |routes| && id in routes[i].ids
    ensures HitDemands(hits, Demanding(distinct, routes)) == ResidentDemands(entries, layer, routes)
  {
    HitsByRoute(entries, layer, distinct, hits, routes);
  }

  function StagedAt(staged: seq<(nat, ExpertValue)>, id: nat, from: nat): (r: Option<nat>)
    ensures r.Some? ==> from <= r.value < |staged|
    decreases |staged| - from
  {
    if |staged| <= from then None
    else if staged[from].0 == id then Some(from)
    else StagedAt(staged, id, from + 1)
  }

  lemma {:induction false} StagedAtIs(staged: seq<(nat, ExpertValue)>, id: nat, from: nat)
    ensures var r := StagedAt(staged, id, from);
      && (r.Some? ==> staged[r.value].0 == id)
      && (r.None? ==> forall i :: from <= i < |staged| ==> staged[i].0 != id)
    decreases |staged| - from
  {
    if from < |staged| && staged[from].0 != id {
      StagedAtIs(staged, id, from + 1);
    }
  }

  /** As many staged values as misses, one for each, each the file's. */
  ghost predicate StagedFor(staged: seq<(nat, ExpertValue)>, truth: ExpertKey -> ExpertValue, layer: nat,
                            misses: seq<nat>)
  {
    && |staged| == |misses|
    && (forall i :: 0 <= i < |staged| ==> staged[i].1 == truth((layer, staged[i].0)))
    && (forall k :: 0 <= k < |misses| ==> Stages(staged, misses[k]))
  }

  ghost predicate Stages(staged: seq<(nat, ExpertValue)>, id: nat) {
    exists i :: 0 <= i < |staged| && staged[i].0 == id
  }

  lemma StagedAfterTake(staged: seq<(nat, ExpertValue)>, truth: ExpertKey -> ExpertValue, layer: nat,
                        misses: seq<nat>, p: nat)
    requires StagedFor(staged, truth, layer, misses) && Distinct(misses) && misses != []
    requires p < |staged| && staged[p].0 == misses[0]
    ensures StagedFor(SwapRemove(staged, p), truth, layer, misses[1..])
  {
    var rest := SwapRemove(staged, p);
    forall k | 0 <= k < |misses[1..]| ensures Stages(rest, misses[1..][k]) {
      assert Stages(staged, misses[k + 1]);
      var i :| 0 <= i < |staged| && staged[i].0 == misses[k + 1];
      assert rest[if i == |staged| - 1 then p else i].0 == misses[1..][k];
    }
  }

  lemma {:induction false} MissesAreDistinct(ids: seq<nat>, hits: seq<bool>)
    requires Distinct(ids) && |hits| == |ids|
    ensures Distinct(MissesOf(ids, hits))
    ensures forall id :: id in MissesOf(ids, hits) ==> id in ids
  {
    if ids != [] {
      MissesAreDistinct(ids[1..], hits[1..]);
      assert ids[0] !in ids[1..];
    }
  }

  /** Unfolding the pending sums by the next planned expert. */
  lemma NextPlanned(ids: seq<nat>, hits: seq<bool>, demands: seq<nat>, k: nat)
    requires Distinct(ids) && |hits| == |demands| == |ids| && k < |ids|
    ensures ids[k..][1..] == ids[k + 1..] && hits[k..][1..] == hits[k + 1..] && demands[k..][1..] == demands[k + 1..]
    ensures ids[..k + 1] == ids[..k] + [ids[k]] && ids[k] !in ids[..k]
    ensures Distinct(MissesOf(ids[k..], hits[k..]))
    ensures !hits[k] ==>
      var misses := MissesOf(ids[k..], hits[k..]);
      misses != [] && misses[0] == ids[k] && misses[1..] == MissesOf(ids[k + 1..], hits[k + 1..])
    ensures hits[k] ==> MissesOf(ids[k..], hits[k..]) == MissesOf(ids[k + 1..], hits[k + 1..])
  {
    MissesAreDistinct(ids[k..], hits[k..]);
  }

  lemma HitsAfterPin(before: seq<CachedExpert>, after: seq<CachedExpert>, layer: nat, ids: seq<nat>, hits: seq<bool>,
                     k: nat)
    requires |hits| == |ids| && HitsAre(before, layer, ids, hits, k) && SameKeys(after, before)
    ensures HitsAre(after, layer, ids, hits, k + 1)
  {
    forall i | k + 1 <= i < |ids| ensures hits[i] == First(after, (layer, ids[i])).Some? {
      FirstSameKeys(before, after, (layer, ids[i]));
    }
  }

  lemma HitsAfterPush(before: seq<CachedExpert>, e: CachedExpert, layer: nat, ids: seq<nat>, hits: seq<bool>, k: nat)
    requires |hits| == |ids| && HitsAre(before, layer, ids, hits, k) && Distinct(ids) && k < |ids|
    requires e.Key() == (layer, ids[k])
    ensures HitsAre(before + [e], layer, ids, hits, k + 1)
  {
    forall i | k + 1 <= i < |ids| ensures hits[i] == First(before + [e], (layer, ids[i])).Some? {
      FirstAppend(before, e, (layer, ids[i]));
    }
  }

  lemma StagedInOrder(staged: seq<(nat, ExpertValue)>, truth: ExpertKey -> ExpertValue, layer: nat, misses: seq<nat>)
    requires StagedAre(staged, truth, layer, misses)
    ensures StagedFor(staged, truth, layer, misses)
  {
    forall k | 0 <= k < |misses| ensures Stages(staged, misses[k]) {
      assert staged[k].0 == misses[k];
    }
  }

  /** What has been staged: one value per missing expert, the file's. */
  ghost predicate StagedAre(staged: seq<(nat, ExpertValue)>, truth: ExpertKey -> ExpertValue, layer: nat,
                            misses: seq<nat>)
  {
    |staged| == |misses| && forall i :: 0 <= i < |misses| ==> staged[i] == (misses[i], truth((layer, misses[i])))
  }

  lemma {:induction false} MissBytesSnoc(truth: ExpertKey -> ExpertValue, layer: nat, ids: seq<nat>, hits: seq<bool>,
                                         id: nat, hit: bool)
    requires |hits| == |ids|
    ensures MissBytes(truth, layer, ids + [id], hits + [hit])
         == MissBytes(truth, layer, ids, hits) + if hit then 0 else truth((layer, id)).storedBytes
  {
    if ids == [] {
      assert ([] + [id])[1..] == [] && ([] + [hit])[1..] == [];
    } else {
      assert (ids + [id])[1..] == ids[1..] + [id] && (hits + [hit])[1..] == hits[1..] + [hit];
      MissBytesSnoc(truth, layer, ids[1..], hits[1..], id, hit);
    }
  }

  // ------------------------------------------------------------------------
  // The streaming MoE forward

  /** What one row adds up: each routed expert's weights, in route order. */
  function Contributions(truth: ExpertKey -> ExpertValue, layer: nat, route: RouterResult): seq<(ExpertValue, real)>
    requires |route.ids| == |route.weights|
  {
    seq(|route.ids|, i requires 0 <= i < |route.ids| => (truth((layer, route.ids[i])), route.weights[i]))
  }

  datatype ForwardError = CacheRefused(error: CacheError) | ComputeFailed

  /** One exact-routed MoE forward. `fails` says at which compute step an error
      strikes: 0 is the shared expert, 1 to 8 the routed ones, 9 the observer.
      The plan is released on success and on failure, and what is computed is
      the route over the file's weights, whatever was cached or prefetched. */
  method ForwardWithObserver(cache: WholeExpertLfuCache, loader: Loader, layer: nat, toLayer: nat, route: RouterResult,
                             fanout: Fetch.ReadFanout, schedule: seq<nat>, fails: nat -> bool)
      returns (r: Result<seq<(ExpertValue, real)>, ForwardError>)
    requires cache.Usable() && loader.truth == cache.truth && |route.ids| == |route.weights| == TOP_K
    modifies cache, cache.predictor
    ensures cache.Usable() && (old(cache.Valid()) ==> cache.Valid())
    ensures old(cache.Idle()) ==> cache.Idle()
    ensures !old(cache.Idle()) ==> r == Failure(CacheRefused(PlanOverlap))
    ensures r.Success? ==> ExactRoute(route) && r.value == Contributions(cache.truth, layer, route)
    ensures r.Success? || r == Failure(ComputeFailed) ==>
      (r.Success? <==> forall k: nat :: k <= TOP_K + 1 ==> !fails(k))
    ensures r.Failure? && r.error.CacheRefused? ==>
      r.error.error in {PlanOverlap, InvalidRoute, UnknownExpert, RouteTooLarge, CannotPin, LoadFailed}
  {
    hide WholeExpertLfuCache.Usable, WholeExpertLfuCache.Pinned, WholeExpertLfuCache.TransactionIs,
         WholeExpertLfuCache.CannotHold, WholeExpertLfuCache.ReleasedFrom, AdmitAll, DemandedAt, Released, Contributions,
         NoneGivenBack;
    UsableIsAccounted(cache);
    var prepared := cache.PrepareExactRoute(loader, layer, route, fanout, schedule);
    if prepared.Failure? {
      return Failure(CacheRefused(prepared.error));
    }
    var plan := prepared.value;
    ghost var _ := cache.AdvancePrefetch(layer, toLayer, route);
    UsableIsAccounted(cache);
    var computed := ComputeRouted(cache, plan, fails);
    var release := cache.FinishExactRoute(plan);
    match (computed, release) {
      case (Failure(e), _) => return Failure(e);
      case (Success(_), Failure(e)) => return Failure(CacheRefused(e));
      case (Success(_), Success(_)) => return computed;
    }
  }

  lemma UsableIsAccounted(cache: WholeExpertLfuCache)
    requires cache.Usable()
    ensures cache.Accounted()
  {
  }

  /** The computation between preparation and release. */
  method ComputeRouted(cache: WholeExpertLfuCache, plan: ExpertLoadPlan, fails: nat -> bool)
      returns (r: Result<seq<(ExpertValue, real)>, ForwardError>)
    requires cache.Usable() && cache.activePlan == Some(plan) && |plan.route.ids| == |plan.route.weights|
    ensures r.Failure? ==> r.error == ComputeFailed
    ensures r.Success? <==> forall k: nat :: k <= |plan.route.ids| + 1 ==> !fails(k)
    ensures r.Success? ==> r.value == Contributions(cache.truth, plan.layer, plan.route)
  {
    if fails(0) {
      return Failure(ComputeFailed);
    }
    var output: seq<(ExpertValue, real)> := [];
    for i := 0 to |plan.route.ids|
      invariant output == Contributions(cache.truth, plan.layer, plan.route)[..i]
      invariant forall k: nat :: k <= i ==> !fails(k)
    {
      var bound := cache.PlannedExpert(plan, plan.route.ids[i]);
      match bound {
        case Failure(e) =>
          return Failure(CacheRefused(e));
        case Success(value) =>
          if fails(i + 1) {
            return Failure(ComputeFailed);
          }
          output := output + [(value, plan.route.weights[i])];
      }
    }
    if fails(|plan.route.ids| + 1) {
      return Failure(ComputeFailed);
    }
    return Success(output);
  }

  // ------------------------------------------------------------------------
  // Any run

  /** One thing that can happen to the cache: a call by its owner, or a step of a
      prefetch thread. */
  datatype CacheOp =
    | Prepare(layer: nat, route: RouterResult)
    | PrepareBatch(layer: nat, routes: seq<RouterResult>)
    | Finish(plan: ExpertLoadPlan)
    | FinishBatch(batch: BatchExpertPlan)
    | Advance(fromLayer: nat, toLayer: nat, demanded: RouterResult)
    | LoadOne(layer: nat, expert: nat)
    | Deliver(worker: nat)
    | Retire(worker: nat)

  ghost predicate WellTyped(op: CacheOp) {
    match op
    case Prepare(_, route) => |route.ids| == |route.weights| == TOP_K
    case PrepareBatch(_, routes) => forall i :: 0 <= i < |routes| ==> |routes[i].ids| == |routes[i].weights| == TOP_K
    case _ => true
  }

  /** What has happened when `op` has been performed with outcome `r`: the plan is
      taken, kept or given back, the load is there or was refused, the batch is
      delivered, the transition observed. */
  ghost predicate Happens(op: CacheOp, loader: Loader, a: Moment, r: Result<(), CacheError>, b: Moment) {
    match op
    case Prepare(layer, route) =>
      && b.batch == a.batch
      && if a.plan.Some? || a.batch.Some? then r == Failure(PlanOverlap) && b.plan == a.plan && b.entries == a.entries
         else
           && (r.Success? <==> b.plan.Some?)
           && (r.Success? ==> ExactRoute(route) && b.plan.value.layer == layer && b.plan.value.route == route)
           && (r.Failure? ==> RefusedRightly(layer, route, loader, r.error))
    case PrepareBatch(layer, routes) =>
      && b.plan == a.plan
      && if a.plan.Some? || a.batch.Some? then r == Failure(PlanOverlap) && b.batch == a.batch
         else
           (r.Success? <==> b.batch.Some?)
           && (r.Success? ==> b.batch.value.layer == layer && b.batch.value.routes == routes)
    case Finish(plan) =>
      && b.batch == a.batch
      && if a.plan == Some(plan) then r.Success? && b.plan == None else r == Failure(NotActive) && b.plan == a.plan
    case FinishBatch(batch) =>
      && b.plan == a.plan
      && if a.batch == Some(batch) then r.Success? && b.batch == None else r == Failure(NotActive) && b.batch == a.batch
    case Advance(fromLayer, toLayer, demanded) =>
      && r.Success? && b.entries == a.entries && b.clock == a.clock && b.inbox == a.inbox
      && b.previous == Some((fromLayer, demanded.ids))
      && b.history == a.history + (match a.previous
                                   case None => []
                                   case Some((layer, ids)) => [Prediction.Observation(layer, ids, fromLayer,
                                     demanded.ids)])
      && (b.workers == a.workers || (a.workers == [] && |b.workers| == 1 && b.workers[0].layer == toLayer))
    case LoadOne(layer, expert) =>
      && b.clock == a.clock + 1 && b.plan == a.plan && b.batch == a.batch
      && (r.Success? ==> First(b.entries, (layer, expert)).Some?)
      && (r.Failure? ==> First(a.entries, (layer, expert)).None?)
    case Deliver(w) =>
      r.Success?
      && if w < |a.workers| && !a.workers[w].delivered
         then b.workers == a.workers[w := a.workers[w].(delivered := true)]
              && b.inbox == a.inbox + Deliveries(a.workers[w].layer, a.workers[w].experts, a.workers[w].issuedClock,
                 loader)
         else b == a
    case Retire(w) =>
      r.Success?
      && if w < |a.workers| && a.workers[w].delivered then b.workers == a.workers[..w] + a.workers[w + 1..] else b == a
  }

  /** Why an idle cache may refuse a route. */
  ghost predicate RefusedRightly(layer: nat, route: RouterResult, loader: Loader, e: CacheError) {
    && e in {InvalidRoute, UnknownExpert, RouteTooLarge, CannotPin, LoadFailed}
    && (e == InvalidRoute <==> !ExactRoute(route))
    && (e == UnknownExpert ==> exists id :: id in route.ids && loader.StoredBytes((layer, id)).None?)
    && (e == LoadFailed ==> exists id :: id in route.ids && loader.Load((layer, id)).None?)
  }

  function Plainly<T>(r: Result<T, CacheError>): Result<(), CacheError> {
    match r case Success(_) => Success(()) case Failure(e) => Failure(e)
  }

  ghost predicate Plans(op: CacheOp) {
    op.Prepare? || op.PrepareBatch? || op.Finish? || op.FinishBatch?
  }

  /** One step that takes or gives back a plan. */
  method PlanStep(cache: WholeExpertLfuCache, op: CacheOp, loader: Loader, fanout: Fetch.ReadFanout)
      returns (r: Result<(), CacheError>)
    requires cache.Usable() && WellTyped(op) && loader.truth == cache.truth && Plans(op)
    modifies cache
    ensures Happens(op, loader, old(cache.Now()), r, cache.Now())
    ensures cache.Usable() && NoneGivenBack(old(cache.Holding()), cache.Holding())
    ensures old(cache.Valid()) ==> cache.Valid()
  {
    hide WholeExpertLfuCache.Accounted, WholeExpertLfuCache.Prefetching, Held, PinnedExactly, NoneGivenBack, SamePins,
         AdmitAll, ExactRoute, Released, First, DemandedAt, Deliveries, WholeExpertLfuCache.TransactionIs,
         WholeExpertLfuCache.CannotHold, WholeExpertLfuCache.DrainedFor;
    match op {
      case Prepare(layer, route) =>
        var prepared := cache.PrepareExactRoute(loader, layer, route, fanout, []);
        r := Plainly(prepared);
      case PrepareBatch(layer, routes) =>
        var prepared, _ := cache.PrepareBatchRoute(loader, layer, routes, fanout, []);
        r := Plainly(prepared);
      case Finish(plan) =>
        r := cache.FinishExactRoute(plan);
      case FinishBatch(batch) =>
        r := cache.FinishBatchRoute(batch);
    }
  }

  /** One step, whatever state its run is in. A plan's pins stay in order unless
      this is a load whose evictions put a copy in front of one of them. */
  method Step(cache: WholeExpertLfuCache, op: CacheOp, loader: Loader, fanout: Fetch.ReadFanout)
      returns (r: Result<(), CacheError>)
    requires cache.Usable() && WellTyped(op) && loader.truth == cache.truth
    modifies cache, cache.predictor
    ensures Happens(op, loader, old(cache.Now()), r, cache.Now())
    ensures cache.Usable() && NoneGivenBack(old(cache.Holding()), cache.Holding())
    ensures old(cache.Valid()) && !old(Misplacing(cache, op, loader)) ==> cache.Valid()
  {
    hide WholeExpertLfuCache.Accounted, WholeExpertLfuCache.Prefetching, Held, PinnedExactly, NoneGivenBack, SamePins,
         PinsMisplaced, Victims, RemoveAll, First, UniqueKeys, DemandedAt, Deliveries, RefusedRightly,
         WholeExpertLfuCache.Evicted, WholeExpertLfuCache.Missed, WholeExpertLfuCache.Touched,
         WholeExpertLfuCache.LoadError, WholeExpertLfuCache.LoadVictims, Prediction.IsPrediction;
    NothingGivenBack(cache.Holding());
    r := Success(());
    match op {
      case Advance(fromLayer, toLayer, demanded) =>
        ghost var _ := cache.AdvancePrefetch(fromLayer, toLayer, demanded);
      case LoadOne(layer, expert) =>
        var loaded := cache.GetOrLoad(loader, layer, expert);
        r := Plainly(loaded);
      case Deliver(w) =>
        if w < |cache.workers| && !cache.workers[w].delivered {
          cache.WorkerDelivers(w, loader);
        }
      case Retire(w) =>
        if w < |cache.workers| && cache.workers[w].delivered {
          cache.WorkerRetires(w);
        }
      case _ =>
        r := PlanStep(cache, op, loader, fanout);
    }
  }

  /** A load whose evictions put an unpinned copy in front of a pinned entry. */
  ghost predicate Misplacing(cache: WholeExpertLfuCache, op: CacheOp, loader: Loader)
    reads cache
  {
    op.LoadOne?
    && PinsMisplaced(cache.entries, cache.LoadVictims(loader, op.layer, op.expert, cache.entries, cache.clock + 1))
  }

  ghost predicate RunIsTyped(cache: WholeExpertLfuCache, ops: seq<CacheOp>, loaders: seq<Loader>) {
    |loaders| == |ops| && forall i :: 0 <= i < |ops| ==> WellTyped(ops[i]) && loaders[i].truth == cache.truth
  }

  /** Each operation has happened between one moment and the next. */
  ghost predicate IsRun(ops: seq<CacheOp>, loaders: seq<Loader>, moments: seq<Moment>,
                        outcomes: seq<Result<(), CacheError>>)
  {
    && |loaders| == |ops| == |outcomes| && |moments| == |ops| + 1
    && forall i :: 0 <= i < |ops| ==> Happens(ops[i], loaders[i], moments[i], outcomes[i], moments[i + 1])
  }

  lemma RunGrows(ops: seq<CacheOp>, loaders: seq<Loader>, moments: seq<Moment>, outcomes: seq<Result<(), CacheError>>,
                 i: nat, r: Result<(), CacheError>, next: Moment)
    requires i < |ops| == |loaders| && IsRun(ops[..i], loaders[..i], moments, outcomes)
    requires Happens(ops[i], loaders[i], moments[i], r, next)
    ensures IsRun(ops[..i + 1], loaders[..i + 1], moments + [next], outcomes + [r])
  {
    hide Happens;
    forall k | 0 <= k < i ensures Happens(ops[k], loaders[k], moments[k], outcomes[k], moments[k + 1]) {
      assert Happens(ops[..i][k], loaders[..i][k], moments[k], outcomes[k], moments[k + 1]);
    }
  }

  /** Every run, in every interleaving with the prefetch threads and with single
      loads at any moment, keeps the accounts, the in-flight bound and a pin on
      each planned expert; and no pin over the plan's own is ever given back. Each
      step may meet a different state of the file (`loaders`). */
  method RunCache(cache: WholeExpertLfuCache, ops: seq<CacheOp>, loaders: seq<Loader>, fanout: Fetch.ReadFanout)
      returns (outcomes: seq<Result<(), CacheError>>, ghost moments: seq<Moment>)
    requires cache.Usable() && RunIsTyped(cache, ops, loaders)
    modifies cache, cache.predictor
    ensures IsRun(ops, loaders, moments, outcomes) && moments[0] == old(cache.Now()) && moments[|ops|] == cache.Now()
    ensures cache.Usable() && NoneGivenBack(old(cache.Holding()), cache.Holding())
  {
    hide WholeExpertLfuCache.Usable, NoneGivenBack, WellTyped, Happens, IsRun;
    NothingGivenBack(cache.Holding());
    outcomes, moments := [], [cache.Now()];
    NothingRun(cache.Now());
    for i := 0 to |ops|
      invariant |moments| == i + 1 && moments[0] == old(cache.Now()) && moments[i] == cache.Now()
      invariant IsRun(ops[..i], loaders[..i], moments, outcomes)
      invariant cache.Usable() && NoneGivenBack(old(cache.Holding()), cache.Holding())
    {
      ghost var before := cache.Holding();
      var r := Step(cache, ops[i], loaders[i], fanout);
      NoneGivenBackChain(old(cache.Holding()), before, cache.Holding());
      RunGrows(ops, loaders, moments, outcomes, i, r, cache.Now());
      outcomes, moments := outcomes + [r], moments + [cache.Now()];
    }
    assert ops[..|ops|] == ops && loaders[..|ops|] == loaders;
  }

  lemma NothingRun(now: Moment)
    ensures IsRun([], [], [now], [])
  {
  }

  /** A step that has happened, or a load left out because there was a copy. */
  ghost predicate Careful(op: CacheOp, loader: Loader, a: Moment, outcome: Option<Result<(), CacheError>>, b: Moment) {
    match outcome
    case Some(r) => Happens(op, loader, a, r, b)
    case None => op.LoadOne? && !NoCopies(a.entries) && b == a
  }

  /** A caller that looks for copies before each single load, and leaves the load
      out if there is one, keeps its pins in order through every run. Nothing else
      is left out. */
  method CarefulRun(cache: WholeExpertLfuCache, ops: seq<CacheOp>, loaders: seq<Loader>, fanout: Fetch.ReadFanout)
      returns (outcomes: seq<Option<Result<(), CacheError>>>, ghost moments: seq<Moment>)
    requires cache.Valid() && RunIsTyped(cache, ops, loaders)
    modifies cache, cache.predictor
    ensures cache.Valid()
    ensures |outcomes| == |ops| && |moments| == |ops| + 1
    ensures moments[0] == old(cache.Now()) && moments[|ops|] == cache.Now()
    ensures forall i :: 0 <= i < |ops| ==> Careful(ops[i], loaders[i], moments[i], outcomes[i], moments[i + 1])
  {
    hide WholeExpertLfuCache.Usable, WholeExpertLfuCache.Pinned, NoneGivenBack, WellTyped, NoCopies, PinsMisplaced,
         WholeExpertLfuCache.LoadVictims, Happens;
    outcomes, moments := [], [cache.Now()];
    for i := 0 to |ops|
      invariant cache.Valid() && |outcomes| == i && |moments| == i + 1
      invariant moments[0] == old(cache.Now()) && moments[i] == cache.Now()
      invariant forall k :: 0 <= k < i ==> Careful(ops[k], loaders[k], moments[k], outcomes[k], moments[k + 1])
    {
      var outcome := None;
      if !ops[i].LoadOne? || NoCopies(cache.entries) {
        if ops[i].LoadOne? {
          NoCopiesNoneMisplaced(cache.entries,
                                cache.LoadVictims(loaders[i], ops[i].layer, ops[i].expert, cache.entries,
                                  cache.clock + 1));
        }
        var r := Step(cache, ops[i], loaders[i], fanout);
        outcome := Some(r);
      }
      assert Careful(ops[i], loaders[i], moments[i], outcome, cache.Now());
      outcomes, moments := outcomes + [outcome], moments + [cache.Now()];
    }
  }
}
