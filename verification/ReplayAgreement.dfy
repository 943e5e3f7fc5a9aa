/** Replaying a trace through either whole-expert cache, and when the two
    replays agree. */
module ReplayAgreement {
  import opened Wrappers
  import opened ReplayModel
  import opened ReplayCaches
  import opened ReplayForesight
  import Traces = TileReplay

  /** Every route names eight distinct experts. */
  ghost predicate ExactRoutes(routes: seq<RouteLayer>) {
    forall i :: 0 <= i < |routes| ==> ExactRoute(routes[i])
  }

  ghost predicate ExactRoute(route: RouteLayer) {
    |route.expertIds| == ROUTED && Distinct(route.expertIds)
  }

  /** Every route names eight experts, as the trace format has it. */
  ghost predicate EightEach(routes: seq<RouteLayer>) {
    forall i :: 0 <= i < |routes| ==> |routes[i].expertIds| == ROUTED
  }

  datatype Tally = Tally(contents: Contents, clock: nat, hits: nat, missBytes: nat)

  const START := Tally(map[], 0, 0, 0)

  /** One route of a policy replay. An expert named again is a hit. */
  ghost function PolicyStep(t: Tally, route: RouteLayer, capacity: nat, sizeOf: Key -> Option<nat>): Tally {
    var layer, firsts, size := route.layer, Firsts(route.expertIds), SizeOrZero(sizeOf);
    var missing := MissBytes(t.contents, layer, firsts, size);
    Tally(Serve(EvictFor(t.contents, Pins(layer, firsts), missing, capacity), layer, firsts, size, t.clock + 1),
          t.clock + 1, t.hits + Hits(t.contents, layer, firsts) + (|route.expertIds| - |firsts|), t.missBytes + missing)
  }

  ghost function PolicyRun(routes: seq<RouteLayer>, capacity: nat,
                           sizeOf: Key -> Option<nat>): Result<Tally, ReplayError>
  {
    if routes == [] then Success(START)
    else
      match PolicyRun(routes[..|routes| - 1], capacity, sizeOf)
      case Failure(e) => Failure(e)
      case Success(t) =>
        var route := routes[|routes| - 1];
        match Verdict(t.contents, route.layer, Firsts(route.expertIds), sizeOf, capacity)
        case Failure(e) => Failure(e)
        case Success(_) => Success(PolicyStep(t, route, capacity, sizeOf))
  }

  /** One route of a prefetch replay nothing is prefetched for. */
  ghost function DemandStep(t: Tally, route: RouteLayer, capacity: nat, bytes: nat): Tally {
    var layer, experts := route.layer, route.expertIds;
    Tally(Demand(t.contents, route, bytes, capacity, t.clock + 1), t.clock + 1,
      t.hits + Hits(t.contents, layer, experts),
          t.missBytes + MissBytes(t.contents, layer, Firsts(experts), Uniform(bytes)))
  }

  ghost function DemandRun(routes: seq<RouteLayer>, capacity: nat, bytes: nat): Tally {
    if routes == [] then START
    else DemandStep(DemandRun(routes[..|routes| - 1], capacity, bytes), routes[|routes| - 1], capacity, bytes)
  }

  function AllOf(bytes: nat): Key -> Option<nat> {
    _ => Some(bytes)
  }

  // ------------------------------------------------------------------------
  // Agreement

  lemma {:induction false} SameSizes(m: Contents, layer: nat, experts: seq<nat>, bytes: nat)
    ensures MissBytes(m, layer, experts, SizeOrZero(AllOf(bytes))) == MissBytes(m, layer, experts, Uniform(bytes))
  {
    if experts != [] {
      SameSizes(m, layer, experts[..|experts| - 1], bytes);
    }
  }

  lemma {:induction false} SameService(m: Contents, layer: nat, experts: seq<nat>, bytes: nat, clock: nat)
    ensures Serve(m, layer, experts, SizeOrZero(AllOf(bytes)), clock) == Serve(m, layer, experts, Uniform(bytes), clock)
  {
    if experts != [] {
      SameService(m, layer, experts[..|experts| - 1], bytes, clock);
    }
  }

  lemma StepsAgree(t: Tally, route: RouteLayer, capacity: nat, bytes: nat)
    requires Distinct(route.expertIds)
    ensures PolicyStep(t, route, capacity, AllOf(bytes)) == DemandStep(t, route, capacity, bytes)
  {
    hide EvictFor, Pins, Serve, MissBytes, Admit, Mark, Firsts;
    var layer, experts := route.layer, route.expertIds;
    FirstsOfDistinct(experts);
    var missing := MissBytes(t.contents, layer, experts, Uniform(bytes));
    SameSizes(t.contents, layer, experts, bytes);
    SameService(EvictFor(t.contents, Pins(layer, experts), missing, capacity), layer, experts, bytes, t.clock + 1);
    MarkEvictAdmit(t.contents, layer, experts, bytes, t.clock + 1, missing, capacity);
  }

  /** A policy replay that succeeds does, at every route, exactly what a replay
      that prefetches nothing does. */
  lemma {:induction false} RunsAgree(routes: seq<RouteLayer>, capacity: nat, bytes: nat)
    requires ExactRoutes(routes) && PolicyRun(routes, capacity, AllOf(bytes)).Success?
    ensures PolicyRun(routes, capacity, AllOf(bytes)).value == DemandRun(routes, capacity, bytes)
  {
    hide PolicyStep, DemandStep, Verdict, Firsts;
    if routes != [] {
      assert ExactRoute(routes[|routes| - 1]);
      RunsAgree(routes[..|routes| - 1], capacity, bytes);
      StepsAgree(DemandRun(routes[..|routes| - 1], capacity, bytes), routes[|routes| - 1], capacity, bytes);
    }
  }

  /** A route that names an expert twice is counted differently: on an empty
      cache the replays agree on the hits exactly when its experts are distinct. */
  lemma FirstRouteAgreesIff(route: RouteLayer, capacity: nat, bytes: nat)
    requires PolicyRun([route], capacity, AllOf(bytes)).Success?
    ensures PolicyRun([route], capacity, AllOf(bytes)).value.hits == DemandRun([route], capacity, bytes).hits
            <==> Distinct(route.expertIds)
  {
    hide EvictFor, Pins, Serve, MissBytes, Admit, Mark, Firsts, Verdict;
    FirstsAreAllIff(route.expertIds);
    NoHits(route.layer, Firsts(route.expertIds));
    NoHits(route.layer, route.expertIds);
    EmptyRuns(capacity, AllOf(bytes), bytes);
    assert [route][..0] == [];
  }

  lemma {:induction false} NoHits(layer: nat, experts: seq<nat>)
    ensures Hits(map[], layer, experts) == 0
  {
    if experts != [] {
      NoHits(layer, experts[..|experts| - 1]);
    }
  }

  ghost predicate UniformContents(m: Contents, bytes: nat) {
    forall k :: k in m ==> m[k].bytes == bytes
  }

  /** Each routed expert costs its bytes once: pinned if resident, else missing. */
  lemma {:induction false} RouteCosts(m: Contents, layer: nat, experts: seq<nat>, bytes: nat)
    requires Distinct(experts) && UniformContents(m, bytes)
    ensures Bytes(Pinned(m, Pins(layer, experts))) + MissBytes(m, layer, experts, Uniform(bytes)) == |experts| * bytes
  {
    hide Bytes, Pins, Pinned, UniformContents;
    if experts == [] {
      PinnedByNone(m, layer);
      NoBytes();
    } else {
      var rest := experts[..|experts| - 1];
      var k := Key(layer, experts[|experts| - 1]);
      RouteCosts(m, layer, rest, bytes);
      PinnedSnoc(m, layer, experts);
      if k in m {
        BytesWith(Pinned(m, Pins(layer, rest)), k, m[k]);
        assert m[k].bytes == bytes by {
          UniformAt(m, bytes, k);
        }
      }
      assert |experts| * bytes == |rest| * bytes + bytes;
    }
  }

  lemma UniformAt(m: Contents, bytes: nat, k: Key)
    requires UniformContents(m, bytes) && k in m
    ensures m[k].bytes == bytes
  {
  }

  lemma PinnedByNone(m: Contents, layer: nat)
    ensures Pinned(m, Pins(layer, [])) == map[]
  {
  }

  lemma PinnedSnoc(m: Contents, layer: nat, experts: seq<nat>)
    requires experts != [] && Distinct(experts)
    ensures var rest := experts[..|experts| - 1]; var k := Key(layer, experts[|experts| - 1]);
      && k !in Pinned(m, Pins(layer, rest))
      && Pinned(m, Pins(layer, experts))
         == if k in m then Pinned(m, Pins(layer, rest))[k := m[k]] else Pinned(m, Pins(layer, rest))
  {
    PinsSnoc(layer, experts);
    assert experts[|experts| - 1] !in experts[..|experts| - 1];
  }

  lemma NoBytes()
    ensures Bytes(map[]) == 0
  {
  }

  lemma {:induction false} NoPlanError(m: Contents, layer: nat, experts: seq<nat>, bytes: nat)
    requires 0 < bytes
    ensures PlanError(m, layer, experts, AllOf(bytes)) == None
  {
    if experts != [] {
      NoPlanError(m, layer, experts[..|experts| - 1], bytes);
    }
  }

  /** The exact threshold: whatever is resident, a route fits when its distinct experts do. */
  lemma RouteFits(m: Contents, route: RouteLayer, capacity: nat, bytes: nat)
    requires UniformContents(m, bytes) && 0 < bytes
    ensures Verdict(m, route.layer, Firsts(route.expertIds), AllOf(bytes), capacity).Success? <==>
      Fits(route, capacity, bytes)
  {
    hide EvictFor, Pins, MissBytes, PlanError, Bytes, Pinned, Firsts;
    var layer, experts := route.layer, Firsts(route.expertIds);
    FirstsAre(route.expertIds);
    NoPlanError(m, layer, experts, bytes);
    SameSizes(m, layer, experts, bytes);
    RouteCosts(m, layer, experts, bytes);
    EvictionIs(m, Pins(layer, experts), MissBytes(m, layer, experts, Uniform(bytes)), capacity);
  }

  /** The distinct experts of the route fit at once. */
  predicate Fits(route: RouteLayer, capacity: nat, bytes: nat) {
    |Firsts(route.expertIds)| * bytes <= capacity
  }

  lemma ExactFits(route: RouteLayer, capacity: nat, bytes: nat)
    requires ExactRoute(route)
    ensures Fits(route, capacity, bytes) <==> ROUTED * bytes <= capacity
  {
    FirstsOfDistinct(route.expertIds);
  }

  lemma {:induction false} RunStaysUniform(routes: seq<RouteLayer>, capacity: nat, bytes: nat)
    requires PolicyRun(routes, capacity, AllOf(bytes)).Success?
    ensures UniformContents(PolicyRun(routes, capacity, AllOf(bytes)).value.contents, bytes)
  {
    hide EvictFor, Pins, MissBytes, Serve, Firsts, Verdict, Hits;
    if routes != [] {
      var before := routes[..|routes| - 1];
      RunStaysUniform(before, capacity, bytes);
      var t := PolicyRun(before, capacity, AllOf(bytes)).value;
      var layer, firsts := routes[|routes| - 1].layer, Firsts(routes[|routes| - 1].expertIds);
      var missing := MissBytes(t.contents, layer, firsts, SizeOrZero(AllOf(bytes)));
      EvictionIs(t.contents, Pins(layer, firsts), missing, capacity);
      ServeIs(EvictFor(t.contents, Pins(layer, firsts), missing, capacity), layer, firsts, SizeOrZero(AllOf(bytes)),
        t.clock + 1);
    }
  }

  /** Main result: on a trace of uniform experts the LRU policy replay succeeds
      exactly when the trace is empty or the distinct experts of each route, of
      more than no bytes, fit. With eight distinct experts in every route it and
      the prefetch replay at depth zero then have the same contents, hits and miss
      bytes after every route. */
  lemma {:induction false} ReplaysAgreeExactlyWhenRoutesFit(routes: seq<RouteLayer>, capacity: nat, bytes: nat)
    requires EightEach(routes)
    ensures PolicyRun(routes, capacity, AllOf(bytes)).Success?
            <==> routes == [] || (0 < bytes && forall i :: 0 <= i < |routes| ==> Fits(routes[i], capacity, bytes))
    ensures ExactRoutes(routes) ==>
      (PolicyRun(routes, capacity, AllOf(bytes)).Success? <==>
        routes == [] || (0 < bytes && ROUTED * bytes <= capacity))
    ensures ExactRoutes(routes) && PolicyRun(routes, capacity, AllOf(bytes)).Success? ==>
              PolicyRun(routes, capacity, AllOf(bytes)).value == DemandRun(routes, capacity, bytes)
  {
    hide PolicyRun, DemandRun, Fits;
    RunSucceedsIff(routes, capacity, bytes);
    if ExactRoutes(routes) {
      if PolicyRun(routes, capacity, AllOf(bytes)).Success? {
        RunsAgree(routes, capacity, bytes);
      }
      forall i | 0 <= i < |routes| ensures Fits(routes[i], capacity, bytes) <==> ROUTED * bytes <= capacity {
        ExactFits(routes[i], capacity, bytes);
      }
      if routes != [] {
        assert Fits(routes[0], capacity, bytes) <==> ROUTED * bytes <= capacity;
      }
    }
  }

  lemma {:induction false} RunSucceedsIff(routes: seq<RouteLayer>, capacity: nat, bytes: nat)
    requires EightEach(routes)
    ensures PolicyRun(routes, capacity, AllOf(bytes)).Success?
            <==> routes == [] || (0 < bytes && forall i :: 0 <= i < |routes| ==> Fits(routes[i], capacity, bytes))
  {
    hide PolicyStep, Verdict, Fits, Firsts;
    if routes != [] {
      var before := routes[..|routes| - 1];
      var route := routes[|routes| - 1];
      RunSucceedsIff(before, capacity, bytes);
      assert routes == before + [route];
      if PolicyRun(before, capacity, AllOf(bytes)).Success? {
        RunStaysUniform(before, capacity, bytes);
        if 0 < bytes {
          RouteFits(PolicyRun(before, capacity, AllOf(bytes)).value.contents, route, capacity, bytes);
        } else {
          ZeroSizeFails(route, capacity);
          EmptyRuns(capacity, AllOf(0), 0);
        }
      }
    }
  }

  lemma ZeroSizeFails(route: RouteLayer, capacity: nat)
    requires |route.expertIds| == ROUTED
    ensures Verdict(map[], route.layer, Firsts(route.expertIds), AllOf(0), capacity).Failure?
  {
    FirstsAre(route.expertIds);
    assert route.expertIds[0] in Firsts(route.expertIds);
    PlanFailsAtOnce(route.layer, Firsts(route.expertIds));
  }

  lemma {:induction false} PlanFailsAtOnce(layer: nat, experts: seq<nat>)
    requires experts != []
    ensures PlanError(map[], layer, experts, AllOf(0)) == Some(ZeroBytes)
  {
    var m: Contents := map[];
    var rest := experts[..|experts| - 1];
    assert AllOf(0)(Key(layer, experts[|experts| - 1])) == Some(0);
    if rest == [] {
      assert PlanError(m, layer, rest, AllOf(0)) == None;
      assert PlanError(m, layer, experts, AllOf(0)) == Some(ZeroBytes);
    } else {
      PlanFailsAtOnce(layer, rest);
    }
  }

  // ------------------------------------------------------------------------
  // The replays

  lemma {:induction false} FailureSticks(routes: seq<RouteLayer>, capacity: nat, sizeOf: Key -> Option<nat>, n: nat)
    requires n <= |routes| && PolicyRun(routes[..n], capacity, sizeOf).Failure?
    ensures PolicyRun(routes, capacity, sizeOf) == PolicyRun(routes[..n], capacity, sizeOf)
  {
    hide PolicyStep, Verdict;
    if n < |routes| {
      assert routes[..|routes| - 1][..n] == routes[..n];
      FailureSticks(routes[..|routes| - 1], capacity, sizeOf, n);
    } else {
      assert routes[..n] == routes;
    }
  }

  lemma RunSnoc(routes: seq<RouteLayer>, route: RouteLayer, capacity: nat, sizeOf: Key -> Option<nat>, bytes: nat)
    ensures var before := PolicyRun(routes, capacity, sizeOf); var after := PolicyRun(routes + [route], capacity,
      sizeOf);
      && (before.Success? ==>
           match Verdict(before.value.contents, route.layer, Firsts(route.expertIds), sizeOf, capacity)
           case Failure(e) => after == Failure(e)
           case Success(_) => after == Success(PolicyStep(before.value, route, capacity, sizeOf)))
    ensures DemandRun(routes + [route], capacity, bytes)
      == DemandStep(DemandRun(routes, capacity, bytes), route, capacity, bytes)
  {
    hide PolicyStep, Verdict, DemandStep;
    assert (routes + [route])[..|routes|] == routes;
  }

  /** Replays a trace under the LRU policy. */
  method ReplayTrace(trace: Traces.RouteTrace, capacity: nat, sizeOf: Key -> Option<nat>)
      returns (r: Result<ReplayResult, ReplayError>)
    requires EightEach(Flat(trace.steps))
    ensures trace.schemaVersion != 1 ==> r == Failure(UnsupportedSchema)
    ensures trace.schemaVersion == 1 && capacity == 0 ==> r == Failure(ZeroCapacity)
    ensures trace.schemaVersion == 1 && capacity != 0 ==>
      match PolicyRun(Flat(trace.steps), capacity, sizeOf)
      case Failure(e) => r == Failure(e)
      case Success(t) =>
        && r.Success? && r.value.routeEvents == |Flat(trace.steps)|
        && r.value.hits == t.hits && r.value.rawMissBytes == t.missBytes
        && r.value.hits + r.value.misses == ROUTED * r.value.routeEvents
        && r.value.peakResidentBytes <= capacity
  {
    hide PolicyRun, PolicyFollows, EightEach, Flat, ReplayCache.Valid;
    if trace.schemaVersion != 1 {
      return Failure(UnsupportedSchema);
    }
    if capacity == 0 {
      return Failure(ZeroCapacity);
    }
    var cache := new ReplayCache(capacity);
    var steps := trace.steps;
    PolicyStarts(cache, steps, sizeOf);
    for s := 0 to |steps|
      invariant cache.capacity == capacity && cache.Valid() && fresh(cache)
      invariant PolicyFollows(cache, Flat(steps[..s]), sizeOf)
    {
      FlatSnoc(steps, s);
      var routed := ReplayTraceStep(cache, steps, s, sizeOf);
      match routed
      case Failure(e) => return Failure(e);
      case Success(_) =>
    }
    assert steps[..|steps|] == steps;
    PolicyEnds(cache, Flat(steps), sizeOf);
    r := Success(cache.result);
  }

  lemma PolicyStarts(cache: ReplayCache, steps: seq<seq<RouteLayer>>, sizeOf: Key -> Option<nat>)
    requires cache.clock == 0 && Holding(cache.entries) == map[] && cache.result == ReplayResult(0, 0, 0, 0, 0, 0)
    ensures PolicyFollows(cache, Flat(steps[..0]), sizeOf)
  {
  }

  lemma PolicyEnds(cache: ReplayCache, done: seq<RouteLayer>, sizeOf: Key -> Option<nat>)
    requires cache.Valid() && PolicyFollows(cache, done, sizeOf)
    ensures PolicyRun(done, cache.capacity, sizeOf).Success?
    ensures var t := PolicyRun(done, cache.capacity, sizeOf).value; var result := cache.result;
      && result.routeEvents == |done| && result.hits == t.hits && result.rawMissBytes == t.missBytes
      && result.hits + result.misses == ROUTED * result.routeEvents
      && result.peakResidentBytes <= cache.capacity
  {
    hide PolicyRun, Holding, Bytes;
  }

  /** The layers of one decode step. */
  method ReplayTraceStep(cache: ReplayCache, steps: seq<seq<RouteLayer>>, s: nat, sizeOf: Key -> Option<nat>)
      returns (r: Result<(), ReplayError>)
    requires s < |steps| && EightEach(Flat(steps))
    requires cache.Valid() && PolicyFollows(cache, Flat(steps[..s]), sizeOf)
    modifies cache
    ensures cache.Valid()
    ensures r.Failure? ==> PolicyRun(Flat(steps), cache.capacity, sizeOf) == Failure(r.error)
    ensures r.Success? ==> PolicyFollows(cache, Flat(steps[..s]) + steps[s], sizeOf)
  {
    hide PolicyRun, PolicyFollows, EightEach, Flat, ReplayCache.Valid;
    ghost var before := Flat(steps[..s]);
    var layers := steps[s];
    assert before + layers[..0] == before;
    for l := 0 to |layers|
      invariant cache.Valid() && PolicyFollows(cache, before + layers[..l], sizeOf)
    {
      ghost var done := before + layers[..l];
      FlatPrefix(steps, s, l + 1);
      assert done + [layers[l]] == before + layers[..l + 1];
      EightAt(Flat(steps), done, layers[l]);
      r := PolicyRoute(cache, layers[l], sizeOf, done);
      if r.Failure? {
        assert done + [layers[l]] == Flat(steps)[..|done| + 1];
        FailureSticks(Flat(steps), cache.capacity, sizeOf, |done| + 1);
        return;
      }
    }
    assert layers[..|layers|] == layers;
    r := Success(());
  }

  lemma EmptyRuns(capacity: nat, sizeOf: Key -> Option<nat>, bytes: nat)
    ensures PolicyRun([], capacity, sizeOf) == Success(START) && DemandRun([], capacity, bytes) == START
  {
  }

  lemma EightAt(routes: seq<RouteLayer>, done: seq<RouteLayer>, route: RouteLayer)
    requires EightEach(routes) && done + [route] <= routes
    ensures |route.expertIds| == ROUTED
  {
    assert (done + [route])[|done|] == routes[|done|];
  }

  /** The cache is where the model is after `done`. */
  ghost predicate PolicyFollows(cache: ReplayCache, done: seq<RouteLayer>, sizeOf: Key -> Option<nat>)
    reads cache
  {
    && PolicyRun(done, cache.capacity, sizeOf).Success?
    && var t := PolicyRun(done, cache.capacity, sizeOf).value;
       && t == Tally(Holding(cache.entries), cache.clock, cache.result.hits, cache.result.rawMissBytes)
       && cache.result.routeEvents == |done|
       && cache.result.hits + cache.result.misses == ROUTED * |done|
  }

  method PolicyRoute(cache: ReplayCache, route: RouteLayer, sizeOf: Key -> Option<nat>, ghost done: seq<RouteLayer>)
      returns (r: Result<(), ReplayError>)
    requires cache.Valid() && |route.expertIds| == ROUTED && PolicyFollows(cache, done, sizeOf)
    modifies cache
    ensures cache.Valid()
    ensures r.Failure? ==> PolicyRun(done + [route], cache.capacity, sizeOf) == Failure(r.error)
    ensures r.Success? ==> PolicyFollows(cache, done + [route], sizeOf)
  {
    hide ReplayCache.Valid, EvictFor, Pins, Serve, MissBytes, PolicyRun, Verdict, Hits, Holding, Firsts;
    RunSnoc(done, route, cache.capacity, sizeOf, 0);
    r := cache.Route(route.layer, route.expertIds, sizeOf);
  }

  // ------------------------------------------------------------------------
  // The prefetch replay

  /** What holds of the counters after the routes `done`, whatever was predicted:
      demands that are no hits are paid for, an expert named twice once. */
  ghost predicate Balanced(result: PrefetchReplayResult, deliveredBytes: nat, done: seq<RouteLayer>, bytes: nat) {
    var missed := ROUTED * |done| - result.hits;
    && result.routeEvents == |done|
    && result.recallDenominator == ROUTED * |done|
    && 0 <= missed
    && result.demandMissBytes <= Times(missed, bytes)
    && (ExactRoutes(done) ==> result.demandMissBytes == Times(missed, bytes))
    && deliveredBytes == Times(result.prefetched, bytes)
  }

  ghost predicate Accounted(cache: PrefetchReplayCache, done: seq<RouteLayer>, bytes: nat)
    reads cache
  {
    Balanced(cache.result, cache.deliveredBytes, done, bytes)
  }

  /** The counters after `n` events, the waste aside, and the bytes promoted. */
  ghost predicate Tallied(t: Replayed, n: nat, result: PrefetchReplayResult, promoted: nat) {
    && result.routeEvents == n
    && result.hits == Sum(n, k => Hit(t, k))
    && result.demandMissBytes == Sum(n, k => Paid(t, k))
    && result.prefetched == Sum(n, k => Fetched(t, k))
    && result.precisionDenominator == Sum(n, k => Expected(t, k))
    && result.prefetchHits == Sum(n, k => Useful(t, k))
    && result.recallNumerator == Sum(n, k => Recalled(t, k))
    && promoted == Sum(n, k => Redeemed(t, k))
  }

  /** The cache is where the trace and the predictor say it is. */
  ghost predicate Follows(cache: PrefetchReplayCache, t: Replayed, n: nat)
    reads cache
    requires n <= |t.routes| == |t.targets|
  {
    && cache.clock == n && cache.capacity == t.capacity
    && Holding(cache.entries) == Left(t, n)
    && Tallied(t, n, cache.result, cache.promotedBytes)
  }

  /** One event more: every sum grows by what the event counts. */
  lemma TalliedNext(t: Replayed, n: nat, before: PrefetchReplayResult, after: PrefetchReplayResult, promoted: nat,
                    promoted': nat)
    requires During(t, n) && Tallied(t, n, before, promoted)
    requires after.routeEvents == before.routeEvents + 1 && after.hits == before.hits + Hit(t, n)
    requires after.demandMissBytes == before.demandMissBytes + Paid(t, n)
      && after.prefetched == before.prefetched + Fetched(t, n)
    requires after.precisionDenominator == before.precisionDenominator + Expected(t, n)
    requires after.prefetchHits == before.prefetchHits + Useful(t, n)
    requires after.recallNumerator == before.recallNumerator + Recalled(t, n) && promoted' == promoted + Redeemed(t, n)
    ensures Tallied(t, n + 1, after, promoted')
  {
    hide Hit, Paid, Fetched, Expected, Useful, Recalled, Redeemed;
  }

  function Times(n: int, bytes: nat): int {
    n * bytes
  }

  lemma TimesMore(n: int, m: int, bytes: nat)
    ensures Times(n + m, bytes) == Times(n, bytes) + Times(m, bytes)
    ensures Times(1, bytes) == bytes && Times(0, bytes) == 0
  {
  }

  lemma {:induction false} MissesAreTheRest(m: Contents, layer: nat, experts: seq<nat>, bytes: nat)
    ensures Hits(m, layer, experts) <= |experts|
    ensures MissBytes(m, layer, experts, Uniform(bytes)) == Times(|experts| - Hits(m, layer, experts), bytes)
  {
    hide Times;
    if experts == [] {
      TimesMore(0, 0, bytes);
    } else {
      var rest := experts[..|experts| - 1];
      MissesAreTheRest(m, layer, rest, bytes);
      TimesMore(|rest| - Hits(m, layer, rest), 1, bytes);
    }
  }

  lemma {:induction false} FirstsCostNoMore(m: Contents, layer: nat, experts: seq<nat>, size: Key -> nat)
    ensures MissBytes(m, layer, Firsts(experts), size) <= MissBytes(m, layer, experts, size)
  {
    if experts != [] {
      var n := |experts| - 1;
      var firsts := Firsts(experts[..n]);
      FirstsCostNoMore(m, layer, experts[..n], size);
      if experts[n] !in experts[..n] {
        assert (firsts + [experts[n]])[..|firsts|] == firsts;
      } else {
        assert firsts + [] == firsts;
      }
    }
  }

  /** What one route adds to the bytes paid for. */
  lemma RoutePays(m: Contents, route: RouteLayer, missed: nat, bytes: nat)
    requires |route.expertIds| == ROUTED
    ensures var layer, experts := route.layer, route.expertIds;
      var more := missed + ROUTED - Hits(m, layer, experts);
      && Hits(m, layer, experts) <= ROUTED
      && Times(missed, bytes) + MissBytes(m, layer, Firsts(experts), Uniform(bytes)) <= Times(more, bytes)
      && (Distinct(experts) ==>
            Times(missed, bytes) + MissBytes(m, layer, Firsts(experts), Uniform(bytes)) == Times(more, bytes))
  {
    hide Times, Firsts, MissBytes, Hits;
    var layer, experts := route.layer, route.expertIds;
    MissesAreTheRest(m, layer, experts, bytes);
    FirstsCostNoMore(m, layer, experts, Uniform(bytes));
    TimesMore(missed, ROUTED - Hits(m, layer, experts), bytes);
    if Distinct(experts) {
      FirstsOfDistinct(experts);
    }
  }

  lemma ExactSnoc(done: seq<RouteLayer>, route: RouteLayer)
    requires ExactRoutes(done + [route])
    ensures ExactRoutes(done) && ExactRoute(route)
  {
    assert forall i :: 0 <= i < |done| ==> (done + [route])[i] == done[i];
    assert ExactRoute((done + [route])[|done|]);
  }

  lemma BalancedAfterRoute(before: PrefetchReplayResult, after: PrefetchReplayResult, deliveredBytes: nat, m: Contents,
                           done: seq<RouteLayer>, route: RouteLayer, bytes: nat)
    requires Balanced(before, deliveredBytes, done, bytes) && |route.expertIds| == ROUTED
    requires after.routeEvents == before.routeEvents + 1 && after.prefetched == before.prefetched
    requires after.recallDenominator == before.recallDenominator + ROUTED
    requires after.hits == before.hits + Hits(m, route.layer, route.expertIds)
    requires after.demandMissBytes == before.demandMissBytes
      + MissBytes(m, route.layer, Firsts(route.expertIds), Uniform(bytes))
    ensures Balanced(after, deliveredBytes, done + [route], bytes)
  {
    hide Times, Firsts, MissBytes, Hits, ExactRoutes;
    RoutePays(m, route, ROUTED * |done| - before.hits, bytes);
    if ExactRoutes(done + [route]) {
      ExactSnoc(done, route);
    }
  }

  /** Delivers the pending predictions. */
  method DeliverAll(cache: PrefetchReplayCache, target: nat, pending: seq<nat>, bytes: nat, ghost done: seq<RouteLayer>)
    requires cache.Valid() && Accounted(cache, done, bytes)
    modifies cache
    ensures cache.Valid() && Accounted(cache, done, bytes)
    ensures cache.clock == old(cache.clock) && cache.promotedBytes == old(cache.promotedBytes)
    ensures Holding(cache.entries)
         == ArriveAll(old(Holding(cache.entries)), target, pending, bytes, cache.capacity, cache.clock)
    ensures cache.result == old(cache.result).(
              prefetched := old(cache.result).prefetched
                            + Arrivals(old(Holding(cache.entries)), target, pending, bytes, cache.capacity,
                              cache.clock),
              prefetchWastedBytes := cache.result.prefetchWastedBytes)
  {
    hide PrefetchReplayCache.Valid, EvictFor, Holding, Times, ExactRoutes, ArriveAll, Arrivals;
    ghost var m := Holding(cache.entries);
    NothingArrives(m, target, bytes, cache.capacity, cache.clock);
    for i := 0 to |pending|
      invariant cache.Valid() && Accounted(cache, done, bytes)
      invariant cache.clock == old(cache.clock) && cache.promotedBytes == old(cache.promotedBytes)
      invariant Holding(cache.entries) == ArriveAll(m, target, pending[..i], bytes, cache.capacity, cache.clock)
      invariant cache.result == old(cache.result).(
                  prefetched := old(cache.result).prefetched
                                + Arrivals(m, target, pending[..i], bytes, cache.capacity, cache.clock),
                  prefetchWastedBytes := cache.result.prefetchWastedBytes)
    {
      TimesMore(cache.result.prefetched, 1, bytes);
      ArriveNext(m, target, pending, i, bytes, cache.capacity, cache.clock);
      cache.Deliver(target, pending[i], bytes);
    }
    assert pending[..|pending|] == pending;
  }

  lemma NothingArrives(m: Contents, target: nat, bytes: nat, capacity: nat, clock: nat)
    ensures ArriveAll(m, target, [], bytes, capacity, clock) == m
      && Arrivals(m, target, [], bytes, capacity, clock) == 0
  {
  }

  /** Delivers the pending predictions, then replays one route. */
  method PrefetchRoute(cache: PrefetchReplayCache, route: RouteLayer, target: nat, pending: seq<nat>, bytes: nat,
                       ghost done: seq<RouteLayer>, ghost t: Replayed)
    requires cache.Valid() && |route.expertIds| == ROUTED && Accounted(cache, done, bytes)
    requires During(t, |done|) && t.routes[|done|] == route && t.bytes == bytes && Follows(cache, t, |done|)
    requires target == Target(t, |done|) && pending == Issued(t, |done|)
    modifies cache
    ensures cache.Valid() && Accounted(cache, done + [route], bytes) && Follows(cache, t, |done| + 1)
  {
    hide PrefetchReplayCache.Valid, EvictFor, Pins, Admit, Mark, MissBytes, Hits, Holding, Firsts, Balanced,
         Served, Foreseen, Promoted, ArriveAll, Arrivals, Issued, Sum, Tallied;
    ghost var before, promoted := cache.result, cache.promotedBytes;
    DeliverAll(cache, target, pending, bytes, done);
    ghost var arrived, m := cache.result, Holding(cache.entries);
    cache.Route(route.layer, route.expertIds, bytes, pending);
    BalancedAfterRoute(arrived, cache.result, cache.deliveredBytes, m, done, route, bytes);
    TalliedNext(t, |done|, before, cache.result, promoted, cache.promotedBytes);
  }

  /** Replays a trace with prefetching one event ahead. For every depth and every
      predictor the counters are the sums of what the trace and the predictor make
      each event count. Whatever is predicted, every demand of distinct experts is a
      hit or is paid for, prefetching wastes no more than it delivered, and precision
      and recall are at most one. At depth zero nothing is prefetched. */
  method ReplayPrefetch(trace: Traces.RouteTrace, capacity: nat, depth: nat, bytes: nat, predict: Predictor)
      returns (r: Result<PrefetchReplayResult, ReplayError>)
    requires EightEach(Flat(trace.steps))
    ensures trace.schemaVersion != 1 ==> r == Failure(UnsupportedSchema)
    ensures trace.schemaVersion == 1 && capacity == 0 ==> r == Failure(ZeroCapacity)
    ensures trace.schemaVersion == 1 && capacity != 0 ==> r.Success?
    ensures r.Success? ==>
      var routes := Flat(trace.steps);
      Counts(Replayed(routes, Targets(trace.steps), capacity, bytes, depth, predict), |routes|, r.value)
    ensures r.Success? ==>
      var routes := Flat(trace.steps); var result := r.value;
      && result.routeEvents == |routes| && result.recallDenominator == ROUTED * |routes|
      && result.hits <= ROUTED * |routes|
      && result.demandMissBytes <= Times(ROUTED * |routes| - result.hits, bytes)
      && (ExactRoutes(routes) ==> result.demandMissBytes == Times(ROUTED * |routes| - result.hits, bytes))
      && result.prefetchWastedBytes <= Times(result.prefetched, bytes)
      && result.prefetchHits == result.precisionNumerator <= result.precisionDenominator
      && result.recallNumerator <= result.recallDenominator
    ensures r.Success? && depth == 0 ==>
      var t := DemandRun(Flat(trace.steps), capacity, bytes);
      r.value.hits == t.hits && r.value.demandMissBytes == t.missBytes && r.value.prefetched == 0
  {
    hide EightEach, ExactRoutes, Flat, Targets, PrefetchReplayCache.Valid, Accounted, Follows, Counts, DemandRun, Sum, Left,
         Times;
    if trace.schemaVersion != 1 {
      return Failure(UnsupportedSchema);
    }
    if capacity == 0 {
      return Failure(ZeroCapacity);
    }
    var cache := PrefetchSteps(trace.steps, capacity, depth, bytes, predict);
    ghost var routes := Flat(trace.steps);
    ghost var t := Replayed(routes, Targets(trace.steps), capacity, bytes, depth, predict);
    PrefetchEnds(cache, routes, t);
    if depth == 0 {
      DemandEnds(cache, t);
    }
    r := Success(cache.result);
  }

  /** The loop over the steps of a trace, from an empty cache. */
  method PrefetchSteps(steps: seq<seq<RouteLayer>>, capacity: nat, depth: nat, bytes: nat, predict: Predictor)
      returns (cache: PrefetchReplayCache)
    requires EightEach(Flat(steps))
    ensures fresh(cache) && cache.Valid() && Accounted(cache, Flat(steps), bytes)
    ensures Follows(cache, Replayed(Flat(steps), Targets(steps), capacity, bytes, depth, predict), |Flat(steps)|)
  {
    hide EightEach, Flat, Targets, PrefetchReplayCache.Valid, Accounted, Follows, Issued;
    cache := new PrefetchReplayCache(capacity);
    ghost var t := Replayed(Flat(steps), Targets(steps), capacity, bytes, depth, predict);
    var target, pending := 0, [];
    var history: seq<RouteLayer> := [];
    PrefetchStarts(cache, steps, t);
    for s := 0 to |steps|
      invariant cache.Valid() && fresh(cache) && cache.capacity == capacity
      invariant history == Flat(steps[..s]) && |history| <= |t.routes| && Accounted(cache, history, bytes)
      invariant Follows(cache, t, |history|) && target == Target(t, |history|) && pending == Issued(t, |history|)
    {
      FlatSnoc(steps, s);
      target, pending, history := PrefetchStep(cache, steps, s, t, target, pending, history, depth, bytes, predict);
    }
    assert steps[..|steps|] == steps;
  }

  lemma PrefetchStarts(cache: PrefetchReplayCache, steps: seq<seq<RouteLayer>>, t: Replayed)
    requires cache.clock == 0 && Holding(cache.entries) == map[] && cache.result == NO_PREFETCH
    requires cache.deliveredBytes == 0 && cache.promotedBytes == 0 && cache.capacity == t.capacity
    requires |t.routes| == |t.targets|
    ensures Flat(steps[..0]) == [] && Accounted(cache, [], t.bytes) && Follows(cache, t, 0) && Issued(t, 0) == []
  {
    hide Holding, Found, Demand, Hit, Paid, Fetched, Expected, Useful, Recalled, Redeemed, Tallied;
    NothingTallied(t);
  }

  lemma NothingTallied(t: Replayed)
    ensures Tallied(t, 0, NO_PREFETCH, 0)
  {
    hide Hit, Paid, Fetched, Expected, Useful, Recalled, Redeemed;
  }

  lemma PrefetchEnds(cache: PrefetchReplayCache, done: seq<RouteLayer>, t: Replayed)
    requires cache.Valid() && Accounted(cache, done, t.bytes)
    requires |done| <= |t.routes| == |t.targets| && Follows(cache, t, |done|)
    ensures Counts(t, |done|, cache.result)
    ensures var result := cache.result; var bytes := t.bytes;
      && result.routeEvents == |done| && result.recallDenominator == ROUTED * |done|
      && result.hits <= ROUTED * |done|
      && result.demandMissBytes <= Times(ROUTED * |done| - result.hits, bytes)
      && (ExactRoutes(done) ==> result.demandMissBytes == Times(ROUTED * |done| - result.hits, bytes))
      && result.prefetchWastedBytes <= Times(result.prefetched, bytes)
      && result.prefetchHits == result.precisionNumerator <= result.precisionDenominator
      && result.recallNumerator <= result.recallDenominator
  {
    hide Holding, Bytes, OnProbation, Sum, Left;
  }

  /** At depth zero the replay is the one that prefetches nothing. */
  lemma {:induction false} NothingForetold(t: Replayed, n: nat)
    requires n <= |t.routes| == |t.targets| && t.depth == 0
    ensures var d := DemandRun(t.routes[..n], t.capacity, t.bytes);
      && Left(t, n) == d.contents && d.clock == n
      && Sum(n, k => Hit(t, k)) == d.hits && Sum(n, k => Paid(t, k)) == d.missBytes && Sum(n, k => Fetched(t, k)) == 0
  {
    hide Demand, Found, Fetched, Issued;
    if n != 0 {
      NothingForetold(t, n - 1);
      NoneIssued(t, n - 1);
      assert t.routes[..n][..n - 1] == t.routes[..n - 1];
    }
  }

  lemma DemandEnds(cache: PrefetchReplayCache, t: Replayed)
    requires |t.routes| == |t.targets| && t.depth == 0 && Follows(cache, t, |t.routes|)
    ensures var d := DemandRun(t.routes, t.capacity, t.bytes);
      cache.result.hits == d.hits && cache.result.demandMissBytes == d.missBytes && cache.result.prefetched == 0
  {
    hide DemandRun, Left, Sum, Holding;
    NothingForetold(t, |t.routes|);
    assert t.routes[..|t.routes|] == t.routes;
  }

  /** The layers of one decode step, with predictions for the one after each. */
  method PrefetchStep(cache: PrefetchReplayCache, steps: seq<seq<RouteLayer>>, s: nat, ghost t: Replayed, target0: nat,
                      pending0: seq<nat>, history0: seq<RouteLayer>, depth: nat, bytes: nat, predict: Predictor)
      returns (target: nat, pending: seq<nat>, history: seq<RouteLayer>)
    requires s < |steps| && EightEach(Flat(steps)) && history0 == Flat(steps[..s])
    requires t == Replayed(Flat(steps), Targets(steps), cache.capacity, bytes, depth, predict)
      && |history0| <= |t.routes|
    requires cache.Valid() && Accounted(cache, history0, bytes) && Follows(cache, t, |history0|)
    requires target0 == Target(t, |history0|) && pending0 == Issued(t, |history0|)
    modifies cache
    ensures cache.Valid() && history == history0 + steps[s] && |history| <= |t.routes|
      && Accounted(cache, history, bytes)
    ensures Follows(cache, t, |history|) && target == Target(t, |history|) && pending == Issued(t, |history|)
  {
    hide EightEach, Flat, Targets, PrefetchReplayCache.Valid, Accounted, Follows, Holding, Issued;
    var layers := steps[s];
    target, pending, history := target0, pending0, history0;
    for l := 0 to |layers|
      invariant cache.Valid() && history == history0 + layers[..l] && |history| <= |t.routes|
      invariant Accounted(cache, history, bytes) && Follows(cache, t, |history|)
      invariant target == Target(t, |history|) && pending == Issued(t, |history|)
    {
      FlatPrefix(steps, s, l + 1);
      TargetsAre(steps, s, l);
      assert history + [layers[l]] == history0 + layers[..l + 1];
      EightAt(Flat(steps), history, layers[l]);
      PrefetchRoute(cache, layers[l], target, pending, bytes, history, t);
      history := history + [layers[l]];
      target := if l + 1 < |layers| then layers[l + 1].layer else 0;
      pending := if depth == 0 then [] else predict(history, target, depth, Holding(cache.entries).Keys);
      IssuedIs(cache, t, history);
    }
    assert layers[..|layers|] == layers;
  }

  lemma IssuedIs(cache: PrefetchReplayCache, t: Replayed, history: seq<RouteLayer>)
    requires history != [] && history <= t.routes && |t.routes| == |t.targets| && Follows(cache, t, |history|)
    ensures Issued(t, |history|)
         == if t.depth == 0 then []
            else (t.predict)(history, Target(t, |history|), t.depth, Holding(cache.entries).Keys)
  {
    assert t.routes[..|history|] == history;
  }

  /** Both replays of one trace of distinct experts, on success, report the same
      hits and miss bytes. */
  method CompareReplays(trace: Traces.RouteTrace, capacity: nat, bytes: nat, predict: Predictor)
      returns (policy: Result<ReplayResult, ReplayError>, prefetch: Result<PrefetchReplayResult, ReplayError>)
    requires EightEach(Flat(trace.steps))
    ensures var routes := Flat(trace.steps);
      && (policy.Success? <==>
           (&& trace.schemaVersion == 1 && capacity != 0
            && (routes == [] || (0 < bytes && forall i :: 0 <= i < |routes| ==> Fits(routes[i], capacity, bytes)))))
      && (policy.Success? ==> prefetch.Success?)
      && (ExactRoutes(routes) ==>
           (&& (policy.Success? <==>
                 (&& trace.schemaVersion == 1 && capacity != 0
                  && (routes == [] || (0 < bytes && ROUTED * bytes <= capacity))))
            && (policy.Success? ==>
                 (policy.value.hits == prefetch.value.hits
                   && policy.value.rawMissBytes == prefetch.value.demandMissBytes))))
  {
    hide PolicyRun, DemandRun, Flat, EightEach, ExactRoutes, Fits;
    ReplaysAgreeExactlyWhenRoutesFit(Flat(trace.steps), capacity, bytes);
    policy := ReplayTrace(trace, capacity, AllOf(bytes));
    prefetch := ReplayPrefetch(trace, capacity, 0, bytes, predict);
  }
}
