/** The two whole-expert replay caches: one byte-budgeted and LRU, one with a
    speculative prefetch queue in front of it. */
module ReplayCaches {
  import opened Wrappers
  import opened ReplayModel

  datatype ReplayError =
    | UnsupportedSchema | ZeroCapacity | UnknownExpert | ZeroBytes | RouteTooLarge | CannotEvict | LostSize

  datatype ReplayResult = ReplayResult(
    routeEvents: nat, hits: nat, misses: nat, evictions: nat, rawMissBytes: nat, peakResidentBytes: nat)

  /** An expert to admit, at the size planned for it. */
  datatype Miss = Miss(expert: nat, bytes: nat)

  function SizeOrZero(sizeOf: Key -> Option<nat>): Key -> nat {
    k => match sizeOf(k) case Some(n) => n case None => 0
  }

  /** The first expert of the route that is missing and has no usable size. */
  function PlanError(m: Contents, layer: nat, experts: seq<nat>, sizeOf: Key -> Option<nat>): Option<ReplayError> {
    if experts == [] then None
    else
      match PlanError(m, layer, experts[..|experts| - 1], sizeOf)
      case Some(e) => Some(e)
      case None =>
        var k := Key(layer, experts[|experts| - 1]);
        if k in m then None
        else match sizeOf(k)
             case None => Some(UnknownExpert)
             case Some(n) => if n == 0 then Some(ZeroBytes) else None
  }

  /** Whether a route is served, and why not. */
  ghost function Verdict(m: Contents, layer: nat, experts: seq<nat>, sizeOf: Key -> Option<nat>, capacity: nat)
    : Result<(), ReplayError>
  {
    match PlanError(m, layer, experts, sizeOf)
    case Some(e) => Failure(e)
    case None =>
      var missing := MissBytes(m, layer, experts, SizeOrZero(sizeOf));
      if missing > capacity then Failure(RouteTooLarge)
      else if Bytes(EvictFor(m, Pins(layer, experts), missing, capacity)) + missing > capacity then Failure(CannotEvict)
      else Success(())
  }

  /** `missing` lists what the rest of the route still has to admit. */
  ghost predicate Pending(missing: seq<Miss>, m: Contents, layer: nat, rest: seq<nat>, sizeOf: Key -> Option<nat>) {
    forall e :: e in rest && Key(layer, e) !in m ==> Listed(missing, layer, e, sizeOf)
  }

  ghost predicate Listed(missing: seq<Miss>, layer: nat, e: nat, sizeOf: Key -> Option<nat>) {
    && (exists i :: 0 <= i < |missing| && missing[i].expert == e)
    && (forall i :: 0 <= i < |missing| && missing[i].expert == e ==> sizeOf(Key(layer, e)) == Some(missing[i].bytes))
  }

  /** `missing` and `total` are planned for the experts of `done`. */
  ghost predicate Planned(missing: seq<Miss>, total: nat, m: Contents, layer: nat, done: seq<nat>,
                          sizeOf: Key -> Option<nat>)
  {
    && PlanError(m, layer, Firsts(done), sizeOf) == None
    && total == MissBytes(m, layer, Firsts(done), SizeOrZero(sizeOf))
    && Pending(missing, m, layer, done, sizeOf)
    && forall j :: 0 <= j < |missing| ==> missing[j].expert in done && Key(layer, missing[j].expert) !in m
  }

  lemma NothingPlanned(m: Contents, layer: nat, experts: seq<nat>, sizeOf: Key -> Option<nat>)
    ensures Planned([], 0, m, layer, experts[..0], sizeOf)
  {
  }

  ghost predicate IsListed(missing: seq<Miss>, e: nat) {
    exists j :: 0 <= j < |missing| && missing[j].expert == e
  }

  /** Planning one more expert: nothing to do if it is resident or already listed. */
  lemma PlannedNext(missing: seq<Miss>, total: nat, m: Contents, layer: nat, experts: seq<nat>,
                    sizeOf: Key -> Option<nat>, i: nat)
    requires i < |experts| && Planned(missing, total, m, layer, experts[..i], sizeOf)
    ensures var k := Key(layer, experts[i]);
      if IsListed(missing, experts[i]) || k in m then Planned(missing, total, m, layer, experts[..i + 1], sizeOf)
      else
        match sizeOf(k)
        case None => PlanError(m, layer, Firsts(experts), sizeOf) == Some(UnknownExpert)
        case Some(0) => PlanError(m, layer, Firsts(experts), sizeOf) == Some(ZeroBytes)
        case Some(bytes) =>
          Planned(missing + [Miss(experts[i], bytes)], total + bytes, m, layer, experts[..i + 1], sizeOf)
  {
    hide PlanError, MissBytes, Pending, Firsts;
    FirstsSnoc(experts, i);
    assert experts[..i + 1] == experts[..i] + [experts[i]];
    if experts[i] in experts[..i] {
      AlreadyPlanned(missing, m, layer, experts[..i], experts[i], sizeOf);
    } else {
      FirstsPrefix(experts, i + 1);
      FirstsAre(experts[..i]);
      PlanErrorSnoc(m, layer, Firsts(experts[..i]), experts[i], sizeOf);
      PlanErrorShows(m, layer, Firsts(experts[..i + 1]), Firsts(experts), sizeOf);
      PendingGrows(missing, m, layer, experts[..i], sizeOf, experts[i]);
    }
  }

  lemma PlanErrorShows(m: Contents, layer: nat, part: seq<nat>, experts: seq<nat>, sizeOf: Key -> Option<nat>)
    requires part <= experts
    ensures PlanError(m, layer, part, sizeOf).Some? ==>
      PlanError(m, layer, experts, sizeOf) == PlanError(m, layer, part, sizeOf)
  {
    hide PlanError;
    assert experts[..|part|] == part;
    if PlanError(m, layer, part, sizeOf).Some? {
      PlanErrorSticks(m, layer, experts, sizeOf, |part|);
    }
  }

  lemma PlanErrorSnoc(m: Contents, layer: nat, done: seq<nat>, e: nat, sizeOf: Key -> Option<nat>)
    ensures PlanError(m, layer, done, sizeOf) == None ==>
      PlanError(m, layer, done + [e], sizeOf) ==
      if Key(layer, e) in m then None
      else match sizeOf(Key(layer, e)) case None => Some(UnknownExpert)
        case Some(n) => if n == 0 then Some(ZeroBytes) else None
    ensures MissBytes(m, layer, done + [e], SizeOrZero(sizeOf))
         == MissBytes(m, layer, done, SizeOrZero(sizeOf)) + if Key(layer, e) in m
           then 0 else SizeOrZero(sizeOf)(Key(layer, e))
  {
    assert (done + [e])[..|done|] == done;
  }

  lemma AlreadyPlanned(missing: seq<Miss>, m: Contents, layer: nat, done: seq<nat>, e: nat, sizeOf: Key -> Option<nat>)
    requires Pending(missing, m, layer, done, sizeOf) && e in done
    ensures Pending(missing, m, layer, done + [e], sizeOf)
    ensures IsListed(missing, e) || Key(layer, e) in m
  {
    if Key(layer, e) !in m {
      assert Listed(missing, layer, e, sizeOf);
    }
  }

  class ReplayCache {
    const capacity: nat
    var clock: nat
    var resident: nat
    var entries: seq<Entry>
    var result: ReplayResult

    ghost predicate Valid()
      reads this
    {
      && UniqueKeys(entries)
      && resident == Bytes(Holding(entries))
      && result.peakResidentBytes <= capacity
      && result.misses == result.evictions + |entries|
    }

    constructor (capacity: nat)
      ensures Valid() && this.capacity == capacity && clock == 0
      ensures Holding(entries) == map[] && result == ReplayResult(0, 0, 0, 0, 0, 0)
    {
      this.capacity := capacity;
      clock := 0;
      resident := 0;
      entries := [];
      result := ReplayResult(0, 0, 0, 0, 0, 0);
    }

    /** Sizes what the route is missing. */
    method PlanMisses(layer: nat, experts: seq<nat>, sizeOf: Key -> Option<nat>)
        returns (r: Result<seq<Miss>, ReplayError>, total: nat)
      requires Valid()
      ensures r.Failure? ==> PlanError(Holding(entries), layer, Firsts(experts), sizeOf) == Some(r.error)
      ensures r.Success? ==>
        (&& PlanError(Holding(entries), layer, Firsts(experts), sizeOf) == None
         && total == MissBytes(Holding(entries), layer, Firsts(experts), SizeOrZero(sizeOf))
         && Pending(r.value, Holding(entries), layer, experts, sizeOf))
    {
      hide Holding, PlanError, MissBytes, Pending, Firsts, UniqueKeys;
      ghost var m := Holding(entries);
      var missing: seq<Miss> := [];
      total := 0;
      NothingPlanned(m, layer, experts, sizeOf);
      for i := 0 to |experts|
        invariant Planned(missing, total, m, layer, experts[..i], sizeOf)
      {
        var k := Key(layer, experts[i]);
        var listed := FindMiss(missing, experts[i]);
        var at := FindEntry(entries, k);
        PlannedNext(missing, total, m, layer, experts, sizeOf, i);
        if listed.None? && at.None? {
          match sizeOf(k)
          case None => return Failure(UnknownExpert), total;
          case Some(bytes) =>
            if bytes == 0 {
              return Failure(ZeroBytes), total;
            }
            total := total + bytes;
            missing := missing + [Miss(experts[i], bytes)];
        }
      }
      assert experts[..|experts|] == experts;
      r := Success(missing);
    }

    /** Evicts until `missing` bytes fit beside what stays. */
    method MakeRoom(layer: nat, experts: seq<nat>, missing: nat) returns (ok: bool)
      requires Valid()
      modifies this
      ensures Valid() && clock == old(clock)
      ensures Holding(entries) == EvictFor(old(Holding(entries)), Pins(layer, experts), missing, capacity)
      ensures ok <==> Bytes(Holding(entries)) + missing <= capacity
      ensures result == old(result).(evictions := result.evictions)
    {
      hide Holding, Victim, Bytes, Pins;
      ghost var goal := EvictFor(Holding(entries), Pins(layer, experts), missing, capacity);
      while resident + missing > capacity
        invariant Valid() && clock == old(clock)
        invariant EvictFor(Holding(entries), Pins(layer, experts), missing, capacity) == goal
        invariant result == old(result).(evictions := result.evictions)
        decreases |entries|
      {
        var v := FindVictim(entries, Pins(layer, experts));
        if v.None? {
          return false;
        }
        var i := v.value;
        HoldingSwapRemove(entries, i);
        HoldingHas(entries, i);
        BytesWithout(Holding(entries), entries[i].key);
        resident := SaturatingSub(resident, entries[i].use.bytes);
        entries := SwapRemove(entries, i);
        result := result.(evictions := result.evictions + 1);
      }
      ok := true;
    }

    /** One expert of the route: a hit becomes most recent, a miss is admitted. */
    method ServeOne(layer: nat, expert: nat, missing: seq<Miss>, ghost sizeOf: Key -> Option<nat>)
        returns (rest: seq<Miss>)
      requires Valid()
      requires Key(layer, expert) !in Holding(entries) ==> Listed(missing, layer, expert, sizeOf)
      requires resident + (if Key(layer, expert) in Holding(entries)
        then 0 else SizeOrZero(sizeOf)(Key(layer, expert))) <= capacity
      modifies this
      ensures Valid() && clock == old(clock)
      ensures var k := Key(layer, expert); var m := old(Holding(entries));
        && Holding(entries) == m[k := Use(if k in m then m[k].bytes else SizeOrZero(sizeOf)(k), clock, false)]
        && resident == old(resident) + (if k in m then 0 else SizeOrZero(sizeOf)(k))
        && (k in m ==> result == old(result).(hits := old(result).hits + 1))
        && (k !in m ==>
              result == old(result).(misses := old(result).misses + 1,
                                     rawMissBytes := old(result).rawMissBytes + SizeOrZero(sizeOf)(k),
                                     peakResidentBytes := result.peakResidentBytes))
      ensures forall e, s :: e != expert && Listed(missing, layer, e, s) ==> Listed(rest, layer, e, s)
    {
      hide Holding, Bytes;
      var k := Key(layer, expert);
      var at := FindEntry(entries, k);
      rest := missing;
      if at.Some? {
        var use := Use(entries[at.value].use.bytes, clock, false);
        HoldingUpdate(entries, at.value, use);
        BytesWith(Holding(entries), k, use);
        entries := entries[at.value := Entry(entries[at.value].key, use)];
        result := result.(hits := result.hits + 1);
        return;
      }
      var index := FindMiss(missing, expert);
      assert index.Some? by { assert Listed(missing, layer, expert, sizeOf); }
      var bytes := missing[index.value].bytes;
      rest := SwapRemove(missing, index.value);
      ListedSurvives(missing, index.value, layer);
      var use := Use(bytes, clock, false);
      BytesWith(Holding(entries), k, use);
      HoldingAppend(entries, Entry(k, use));
      AppendUnique(entries, Entry(k, use));
      entries := entries + [Entry(k, use)];
      resident := resident + bytes;
      result := result.(
        misses := result.misses + 1,
        rawMissBytes := result.rawMissBytes + bytes,
        peakResidentBytes := if result.peakResidentBytes < resident then resident else result.peakResidentBytes);
    }

    /** One exact route. It is refused or served as the model says. */
    method Route(layer: nat, experts: seq<nat>, sizeOf: Key -> Option<nat>) returns (r: Result<(), ReplayError>)
      requires Valid()
      modifies this
      ensures Valid() && clock == old(clock) + 1
      ensures r == Verdict(old(Holding(entries)), layer, Firsts(experts), sizeOf, capacity)
      ensures var m := old(Holding(entries)); var firsts := Firsts(experts); var size := SizeOrZero(sizeOf);
        r.Success? ==>
          (&& Holding(entries) == Serve(EvictFor(m, Pins(layer, firsts), MissBytes(m, layer, firsts, size), capacity),
                                        layer, firsts, size, clock)
           && result.routeEvents == old(result).routeEvents + 1
           && result.hits == old(result).hits + Hits(m, layer, firsts) + (|experts| - |firsts|)
           && result.misses == old(result).misses + |firsts| - Hits(m, layer, firsts)
           && result.rawMissBytes == old(result).rawMissBytes + MissBytes(m, layer, firsts, size)
           && resident <= capacity)
    {
      hide Holding, Bytes, EvictFor, Pins, Serve, MissBytes, Hits, PlanError, Firsts, Pending;
      clock := clock + 1;
      result := result.(routeEvents := result.routeEvents + 1);
      ghost var m := Holding(entries);
      PinsOfFirsts(layer, experts);
      var planned, total := PlanMisses(layer, experts, sizeOf);
      match planned
      case Failure(error) => return Failure(error);
      case Success(missing) =>
        if total > capacity {
          return Failure(RouteTooLarge);
        }
        var ok := MakeRoom(layer, experts, total);
        if !ok {
          return Failure(CannotEvict);
        }
        EvictionKeepsCounts(m, layer, Firsts(experts), SizeOrZero(sizeOf), total, capacity);
        PendingAfterEviction(missing, m, layer, experts, sizeOf, total, capacity);
        ServeAll(layer, experts, missing, sizeOf);
        r := Success(());
    }

    /** The second loop of a route. */
    method ServeAll(layer: nat, experts: seq<nat>, planned: seq<Miss>, ghost sizeOf: Key -> Option<nat>)
      requires Valid()
      requires Pending(planned, Holding(entries), layer, experts, sizeOf)
      requires resident + MissBytes(Holding(entries), layer, Firsts(experts), SizeOrZero(sizeOf)) <= capacity
      modifies this
      ensures Valid() && clock == old(clock) && resident <= capacity
      ensures var m := old(Holding(entries)); var firsts := Firsts(experts); var size := SizeOrZero(sizeOf);
        && Holding(entries) == Serve(m, layer, firsts, size, clock)
        && result.routeEvents == old(result).routeEvents
        && result.hits == old(result).hits + Hits(m, layer, firsts) + (|experts| - |firsts|)
        && result.misses == old(result).misses + |firsts| - Hits(m, layer, firsts)
        && result.rawMissBytes == old(result).rawMissBytes + MissBytes(m, layer, firsts, size)
    {
      hide Holding, Bytes, Listed, Pending, Firsts, Serve, Hits, MissBytes;
      ghost var m := Holding(entries);
      ghost var size := SizeOrZero(sizeOf);
      var missing := planned;
      NothingServed(missing, m, layer, experts, clock, sizeOf);
      for i := 0 to |experts|
        invariant Valid() && clock == old(clock)
        invariant StillPending(missing, m, layer, experts, i, sizeOf)
        invariant ServedSoFar(old(result), old(resident), m, layer, experts[..i], size)
        invariant result.routeEvents == old(result).routeEvents
      {
        NextServed(m, layer, experts, size, clock, i);
        CostsGrow(m, layer, experts, size, i + 1);
        NextIsPending(missing, m, layer, experts, clock, i, sizeOf);
        ghost var before := missing;
        missing := ServeOne(layer, experts[i], missing, sizeOf);
        LaterArePending(before, missing, m, layer, experts, i, sizeOf);
      }
      assert experts[..|experts|] == experts;
    }

    /** What serving the experts of `done` has made of the cache. */
    ghost predicate ServedSoFar(before: ReplayResult, residentBefore: nat, m: Contents, layer: nat, done: seq<nat>,
                                size: Key -> nat)
      reads this
    {
      var firsts := Firsts(done);
      && Holding(entries) == Serve(m, layer, firsts, size, clock)
      && resident == residentBefore + MissBytes(m, layer, firsts, size)
      && result.hits == before.hits + Hits(m, layer, firsts) + (|done| - |firsts|)
      && result.misses == before.misses + |firsts| - Hits(m, layer, firsts)
      && result.rawMissBytes == before.rawMissBytes + MissBytes(m, layer, firsts, size)
    }
  }

  // ------------------------------------------------------------------------
  // The prefetch replay

  datatype PrefetchReplayResult = PrefetchReplayResult(
    routeEvents: nat, hits: nat, demandMissBytes: nat, prefetched: nat, prefetchHits: nat, prefetchWastedBytes: nat,
    precisionNumerator: nat, precisionDenominator: nat, recallNumerator: nat, recallDenominator: nat)

  const NO_PREFETCH := PrefetchReplayResult(0, 0, 0, 0, 0, 0, 0, 0, 0, 0)

  /** How many of the route were among the predictions delivered for it. */
  function Foreseen(experts: seq<nat>, predicted: seq<nat>): nat {
    if experts == [] then 0
    else Foreseen(experts[..|experts| - 1], predicted) + if experts[|experts| - 1] in predicted then 1 else 0
  }

  /** How many distinct demands a prefetched expert, foreseen for this route, served first. */
  function Served(m: Contents, layer: nat, experts: seq<nat>, predicted: seq<nat>): nat {
    if experts == [] then 0
    else
      var k := Key(layer, experts[|experts| - 1]);
      Served(m, layer, experts[..|experts| - 1], predicted)
      + if OnProbationFor(m, k, predicted) then 1 else 0
  }

  /** The bytes of the distinct demanded experts that were on probation. */
  function Promoted(m: Contents, layer: nat, experts: seq<nat>): nat {
    if experts == [] then 0
    else
      var k := Key(layer, experts[|experts| - 1]);
      Promoted(m, layer, experts[..|experts| - 1]) + if k in m && m[k].probation then m[k].bytes else 0
  }

  lemma {:induction false} OnePredictionMore(experts: seq<nat>, predicted: seq<nat>, p: nat)
    requires Distinct(experts)
    ensures Foreseen(experts, predicted + [p]) <= Foreseen(experts, predicted) + 1
    ensures p !in experts ==> Foreseen(experts, predicted + [p]) == Foreseen(experts, predicted)
  {
    if experts != [] {
      OnePredictionMore(experts[..|experts| - 1], predicted, p);
      assert experts[|experts| - 1] !in experts[..|experts| - 1];
    }
  }

  /** Distinct experts cannot be foreseen more often than there are predictions. */
  lemma {:induction false} ForeseenIsBounded(experts: seq<nat>, predicted: seq<nat>)
    requires Distinct(experts)
    ensures Foreseen(experts, predicted) <= |predicted|
  {
    if predicted == [] {
      NothingForeseen(experts);
    } else {
      var rest := predicted[..|predicted| - 1];
      ForeseenIsBounded(experts, rest);
      OnePredictionMore(experts, rest, predicted[|predicted| - 1]);
      assert predicted == rest + [predicted[|predicted| - 1]];
    }
  }

  lemma {:induction false} NothingForeseen(experts: seq<nat>)
    ensures Foreseen(experts, []) == 0
  {
    if experts != [] {
      NothingForeseen(experts[..|experts| - 1]);
    }
  }

  lemma {:induction false} ServedWereForeseen(m: Contents, layer: nat, experts: seq<nat>, predicted: seq<nat>)
    ensures Served(m, layer, experts, predicted) <= Foreseen(experts, predicted)
  {
    if experts != [] {
      ServedWereForeseen(m, layer, experts[..|experts| - 1], predicted);
    }
  }

  /** A prefetched expert, foreseen for this route, that nothing has demanded yet. */
  predicate OnProbationFor(m: Contents, k: Key, predicted: seq<nat>) {
    k in m && m[k].probation && k.expert in predicted
  }

  ghost function OnProbation(m: Contents): Contents {
    map k | k in m && m[k].probation :: m[k]
  }

  class PrefetchReplayCache {
    const capacity: nat
    var clock: nat
    var resident: nat
    var entries: seq<Entry>
    var result: PrefetchReplayResult
    ghost var deliveredBytes: nat
    ghost var promotedBytes: nat

    /** Every byte delivered by the prefetcher was wasted, or has served a
        demand, or is still on probation. */
    ghost predicate Valid()
      reads this
    {
      && UniqueKeys(entries)
      && resident == Bytes(Holding(entries))
      && deliveredBytes == result.prefetchWastedBytes + promotedBytes + Bytes(OnProbation(Holding(entries)))
      && result.prefetchHits == result.precisionNumerator <= result.hits
      && result.precisionNumerator <= result.precisionDenominator
      && result.recallNumerator <= result.recallDenominator
    }

    constructor (capacity: nat)
      ensures Valid() && this.capacity == capacity && clock == 0
      ensures Holding(entries) == map[] && result == NO_PREFETCH && deliveredBytes == 0 && promotedBytes == 0
    {
      this.capacity := capacity;
      clock := 0;
      resident := 0;
      entries := [];
      result := NO_PREFETCH;
      deliveredBytes := 0;
      promotedBytes := 0;
      new;
      assert OnProbation(map[]) == map[];
    }

    method EvictFor(required: nat, pinned: set<Key>)
      requires Valid()
      modifies this
      ensures Valid() && clock == old(clock)
      ensures Holding(entries) == ReplayModel.EvictFor(old(Holding(entries)), pinned, required, capacity)
      ensures result == old(result).(prefetchWastedBytes := result.prefetchWastedBytes)
      ensures deliveredBytes == old(deliveredBytes) && promotedBytes == old(promotedBytes)
    {
      hide Holding, Victim, Bytes, OnProbation;
      ghost var goal := ReplayModel.EvictFor(Holding(entries), pinned, required, capacity);
      while resident + required > capacity
        invariant Valid() && clock == old(clock)
        invariant ReplayModel.EvictFor(Holding(entries), pinned, required, capacity) == goal
        invariant result == old(result).(prefetchWastedBytes := result.prefetchWastedBytes)
        invariant deliveredBytes == old(deliveredBytes) && promotedBytes == old(promotedBytes)
        decreases |entries|
      {
        var v := FindVictim(entries, pinned);
        if v.None? {
          return;
        }
        var i := v.value;
        HoldingSwapRemove(entries, i);
        HoldingHas(entries, i);
        BytesWithout(Holding(entries), entries[i].key);
        ProbationWithout(Holding(entries), entries[i].key);
        var entry := entries[i];
        resident := SaturatingSub(resident, entry.use.bytes);
        entries := SwapRemove(entries, i);
        if entry.use.probation {
          result := result.(prefetchWastedBytes := result.prefetchWastedBytes + entry.use.bytes);
        }
      }
    }

    /** A prefetched expert arrives, unless it is resident already. */
    method Deliver(layer: nat, expert: nat, bytes: nat)
      requires Valid()
      modifies this
      ensures Valid() && clock == old(clock) && promotedBytes == old(promotedBytes)
      ensures var k := Key(layer, expert); var m := old(Holding(entries));
        && (k in m ==> (Holding(entries) == m && result == old(result) && deliveredBytes == old(deliveredBytes)))
        && (k !in m ==>
              (&& Holding(entries) == ReplayModel.EvictFor(m, {}, bytes, capacity)[k := Use(bytes, clock, true)]
               && deliveredBytes == old(deliveredBytes) + bytes
               && result == old(result).(prefetched := old(result).prefetched + 1,
                                         prefetchWastedBytes := result.prefetchWastedBytes)))
    {
      hide Holding, Bytes, ReplayModel.EvictFor, OnProbation;
      var k := Key(layer, expert);
      var at := FindEntry(entries, k);
      if at.Some? {
        return;
      }
      EvictionIs(Holding(entries), {}, bytes, capacity);
      EvictFor(bytes, {});
      var use := Use(bytes, clock, true);
      BytesWith(Holding(entries), k, use);
      ProbationWith(Holding(entries), k, use);
      HoldingAppend(entries, Entry(k, use));
      AppendUnique(entries, Entry(k, use));
      resident := resident + bytes;
      entries := entries + [Entry(k, use)];
      result := result.(prefetched := result.prefetched + 1);
      deliveredBytes := deliveredBytes + bytes;
    }

    /** One demanded expert: a hit is promoted and becomes most recent. */
    method DemandOne(layer: nat, expert: nat, predicted: seq<nat>) returns (hit: bool)
      requires Valid()
      requires OnProbationFor(Holding(entries), Key(layer, expert), predicted) ==>
        result.precisionNumerator < result.precisionDenominator
      modifies this
      ensures Valid() && clock == old(clock)
      ensures var k := Key(layer, expert); var m := old(Holding(entries));
        && hit == (k in m)
        && Holding(entries) == (if k in m then m[k := Use(m[k].bytes, clock, false)] else m)
        && resident == old(resident) && deliveredBytes == old(deliveredBytes)
        && result.hits == old(result).hits + (if k in m then 1 else 0)
        && result.recallDenominator == old(result).recallDenominator + 1
        && result.recallNumerator == old(result).recallNumerator + (if expert in predicted then 1 else 0)
        && result.prefetchHits == old(result).prefetchHits + (if OnProbationFor(m, k, predicted) then 1 else 0)
        && promotedBytes == old(promotedBytes) + (if k in m && m[k].probation then m[k].bytes else 0)
        && result == old(result).(
             hits := result.hits, prefetchHits := result.prefetchHits, precisionNumerator := result.precisionNumerator,
             recallNumerator := result.recallNumerator, recallDenominator := result.recallDenominator)
    {
      hide Holding, Bytes, OnProbation;
      result := result.(recallDenominator := result.recallDenominator + 1);
      var wasPredicted := expert in predicted;
      if wasPredicted {
        result := result.(recallNumerator := result.recallNumerator + 1);
      }
      var k := Key(layer, expert);
      var at := FindEntry(entries, k);
      hit := at.Some?;
      if at.Some? {
        var use := entries[at.value].use;
        result := result.(hits := result.hits + 1);
        if use.probation {
          if wasPredicted {
            result := result.(prefetchHits := result.prefetchHits + 1,
              precisionNumerator := result.precisionNumerator + 1);
          }
          promotedBytes := promotedBytes + use.bytes;
        }
        var used := Use(use.bytes, clock, false);
        HoldingUpdate(entries, at.value, used);
        BytesWith(Holding(entries), k, used);
        ProbationWith(Holding(entries), k, used);
        entries := entries[at.value := Entry(entries[at.value].key, used)];
      }
    }

    /** One route event at a uniform expert size. Hits are marked before room is
        made for the misses; room is made for every time a missing expert is named. */
    method Route(layer: nat, experts: seq<nat>, bytes: nat, predicted: seq<nat>)
      requires Valid()
      modifies this
      ensures Valid() && clock == old(clock) + 1 && deliveredBytes == old(deliveredBytes)
      ensures var m := old(Holding(entries)); var missing := MissBytes(m, layer, experts, Uniform(bytes));
        && Holding(entries) == Admit(ReplayModel.EvictFor(Mark(m, layer, experts, clock), Pins(layer, experts),
           missing, capacity),
                                     layer, experts, bytes, clock)
        && result.routeEvents == old(result).routeEvents + 1
        && result.hits == old(result).hits + Hits(m, layer, experts)
        && result.demandMissBytes == old(result).demandMissBytes + MissBytes(m, layer, Firsts(experts), Uniform(bytes))
        && result.prefetched == old(result).prefetched
        && result.precisionDenominator == old(result).precisionDenominator + |predicted|
        && result.recallDenominator == old(result).recallDenominator + |experts|
        && result.recallNumerator == old(result).recallNumerator + Foreseen(experts, predicted)
        && result.prefetchHits == old(result).prefetchHits + Served(m, layer, Firsts(experts), predicted)
        && promotedBytes == old(promotedBytes) + Promoted(m, layer, Firsts(experts))
    {
      hide Holding, Bytes, ReplayModel.EvictFor, Pins, OnProbation, Firsts, Mark, Admit, MissBytes, Hits, Served, Foreseen,
           Promoted;
      clock := clock + 1;
      result := result.(routeEvents := result.routeEvents + 1,
                        precisionDenominator := result.precisionDenominator + |predicted|);
      ghost var m := Holding(entries);
      ghost var size := Uniform(bytes);
      label L:
      var missing := 0;
      NothingMarked(m, layer, experts, clock, size, predicted);
      for i := 0 to |experts|
        invariant Valid() && clock == old(clock) + 1 && deliveredBytes == old(deliveredBytes)
        invariant Holding(entries) == Mark(m, layer, experts[..i], clock)
        invariant missing == MissBytes(m, layer, experts[..i], size)
        invariant result.hits == old@L(result).hits + Hits(m, layer, experts[..i])
        invariant result.recallDenominator == old@L(result).recallDenominator + i
        invariant result.recallNumerator == old@L(result).recallNumerator + Foreseen(experts[..i], predicted)
        invariant result.prefetchHits == old@L(result).prefetchHits + Served(m, layer, Firsts(experts[..i]), predicted)
        invariant promotedBytes == old(promotedBytes) + Promoted(m, layer, Firsts(experts[..i]))
        invariant result == old@L(result).(
                    hits := result.hits, prefetchHits := result.prefetchHits, precisionNumerator := result.precisionNumerator,
                    recallNumerator := result.recallNumerator, recallDenominator := result.recallDenominator)
      {
        NextMarked(m, layer, experts, clock, size, predicted, i);
        NextPromoted(m, layer, experts, clock, i);
        var hit := DemandOne(layer, experts[i], predicted);
        if !hit {
          missing := missing + bytes;
        }
      }
      assert experts[..|experts|] == experts;
      EvictFor(missing, Pins(layer, experts));
      FirstsAre(experts);
      AdmissionCosts(m, layer, experts, Firsts(experts), bytes, clock, missing, capacity);
      AdmitAll(layer, experts, bytes);
    }

    /** The second loop of a route. */
    method AdmitAll(layer: nat, experts: seq<nat>, bytes: nat)
      requires Valid()
      modifies this
      ensures Valid() && clock == old(clock) && deliveredBytes == old(deliveredBytes)
        && promotedBytes == old(promotedBytes)
      ensures Holding(entries) == Admit(old(Holding(entries)), layer, experts, bytes, clock)
      ensures result == old(result).(demandMissBytes :=
                old(result).demandMissBytes + MissBytes(old(Holding(entries)), layer, Firsts(experts), Uniform(bytes)))
    {
      hide Valid, Holding, Admit, MissBytes, Firsts;
      ghost var m := Holding(entries);
      ghost var size := Uniform(bytes);
      NothingAdmitted(m, layer, experts, bytes, clock);
      for i := 0 to |experts|
        invariant Valid() && clock == old(clock) && deliveredBytes == old(deliveredBytes)
          && promotedBytes == old(promotedBytes)
        invariant Holding(entries) == Admit(m, layer, experts[..i], bytes, clock)
        invariant result == old(result).(
                    demandMissBytes := old(result).demandMissBytes + MissBytes(m, layer, Firsts(experts[..i]), size))
      {
        NextAdmitted(m, layer, experts, bytes, clock, i);
        AdmitMissing(layer, experts[i], bytes);
      }
      assert experts[..|experts|] == experts;
    }

    /** A missing expert is admitted and paid for. */
    method AdmitMissing(layer: nat, expert: nat, bytes: nat)
      requires Valid()
      modifies this
      ensures Valid() && clock == old(clock) && deliveredBytes == old(deliveredBytes)
        && promotedBytes == old(promotedBytes)
      ensures var k := Key(layer, expert); var m := old(Holding(entries));
        && Holding(entries) == (if k in m then m else m[k := Use(bytes, clock, false)])
        && result == old(result).(demandMissBytes := old(result).demandMissBytes + if k in m then 0 else bytes)
    {
      hide Holding, Bytes, OnProbation;
      var k := Key(layer, expert);
      var at := FindEntry(entries, k);
      if at.None? {
        var use := Use(bytes, clock, false);
        BytesWith(Holding(entries), k, use);
        ProbationWith(Holding(entries), k, use);
        HoldingAppend(entries, Entry(k, use));
        AppendUnique(entries, Entry(k, use));
        entries := entries + [Entry(k, use)];
        resident := resident + bytes;
        result := result.(demandMissBytes := result.demandMissBytes + bytes);
      }
    }
  }

  lemma ProbationWithout(m: Contents, k: Key)
    requires k in m
    ensures Bytes(OnProbation(m - {k})) == Bytes(OnProbation(m)) - if m[k].probation then m[k].bytes else 0
  {
    if m[k].probation {
      BytesWithout(OnProbation(m), k);
      assert OnProbation(m - {k}) == OnProbation(m) - {k};
    } else {
      assert OnProbation(m - {k}) == OnProbation(m);
    }
  }

  lemma ProbationWith(m: Contents, k: Key, u: Use)
    ensures Bytes(OnProbation(m[k := u])) == Bytes(OnProbation(m))
      - (if k in m && m[k].probation then m[k].bytes else 0)
                                             + if u.probation then u.bytes else 0
  {
    var after := m[k := u];
    ProbationWithout(after, k);
    if k in m {
      ProbationWithout(m, k);
      assert after - {k} == m - {k};
    } else {
      assert after - {k} == m;
    }
  }

  lemma NothingMarked(m: Contents, layer: nat, experts: seq<nat>, clock: nat, size: Key -> nat, predicted: seq<nat>)
    ensures Mark(m, layer, experts[..0], clock) == m && MissBytes(m, layer, experts[..0], size) == 0
    ensures Hits(m, layer, experts[..0]) == 0 && Foreseen(experts[..0], predicted) == 0
    ensures Served(m, layer, Firsts(experts[..0]), predicted) == 0 && Promoted(m, layer, Firsts(experts[..0])) == 0
  {
  }

  /** What marking the next expert makes of the contents and the counts. Named
      again it is a hit if it was resident, and not on probation any more. */
  lemma NextMarked(m: Contents, layer: nat, experts: seq<nat>, clock: nat, size: Key -> nat, predicted: seq<nat>,
                   i: nat)
    requires i < |experts|
    ensures var k := Key(layer, experts[i]); var done := Mark(m, layer, experts[..i], clock);
      && (k in done <==> k in m)
      && Mark(m, layer, experts[..i + 1], clock) == (if k in done
         then done[k := Use(done[k].bytes, clock, false)] else done)
      && MissBytes(m, layer, experts[..i + 1], size)
         == MissBytes(m, layer, experts[..i], size) + (if k in done then 0 else size(k))
      && Hits(m, layer, experts[..i + 1]) == Hits(m, layer, experts[..i]) + (if k in done then 1 else 0)
      && Foreseen(experts[..i + 1], predicted) == Foreseen(experts[..i], predicted)
         + (if experts[i] in predicted then 1 else 0)
      && Served(m, layer, Firsts(experts[..i + 1]), predicted)
         == Served(m, layer, Firsts(experts[..i]), predicted) + (if OnProbationFor(done, k, predicted) then 1 else 0)
      && Served(m, layer, Firsts(experts[..i + 1]), predicted) <= |predicted|
  {
    hide Pins, Firsts;
    assert experts[..i + 1][..i] == experts[..i];
    MarkIs(m, layer, experts[..i], clock);
    hide Served;
    NextOfFirsts(m, layer, experts, clock, predicted, i);
  }

  lemma NextOfFirsts(m: Contents, layer: nat, experts: seq<nat>, clock: nat, predicted: seq<nat>, i: nat)
    requires i < |experts|
    ensures var k := Key(layer, experts[i]); var done := Mark(m, layer, experts[..i], clock);
      && Served(m, layer, Firsts(experts[..i + 1]), predicted)
         == Served(m, layer, Firsts(experts[..i]), predicted) + (if OnProbationFor(done, k, predicted) then 1 else 0)
      && Served(m, layer, Firsts(experts[..i + 1]), predicted) <= |predicted|
  {
    hide Firsts, Mark, Pins, Foreseen;
    var firsts, e := Firsts(experts[..i]), experts[i];
    MarkIs(m, layer, experts[..i], clock);
    FirstsSnoc(experts, i);
    FirstsAre(experts[..i + 1]);
    ForeseenIsBounded(Firsts(experts[..i + 1]), predicted);
    ServedWereForeseen(m, layer, Firsts(experts[..i + 1]), predicted);
    if e in experts[..i] {
      PinsHave(layer, experts[..i]);
    } else {
      NotPinned(layer, experts[..i], e);
      assert (firsts + [e])[..|firsts|] == firsts;
    }
  }

  /** What demanding the next expert promotes: its bytes, if it is on probation
      and has not been named before. */
  lemma NextPromoted(m: Contents, layer: nat, experts: seq<nat>, clock: nat, i: nat)
    requires i < |experts|
    ensures var k := Key(layer, experts[i]); var done := Mark(m, layer, experts[..i], clock);
      Promoted(m, layer, Firsts(experts[..i + 1]))
      == Promoted(m, layer, Firsts(experts[..i])) + (if k in done && done[k].probation then done[k].bytes else 0)
  {
    hide Firsts, Mark, Pins;
    var firsts, e := Firsts(experts[..i]), experts[i];
    MarkIs(m, layer, experts[..i], clock);
    FirstsSnoc(experts, i);
    if e in experts[..i] {
      PinsHave(layer, experts[..i]);
    } else {
      NotPinned(layer, experts[..i], e);
      assert (firsts + [e])[..|firsts|] == firsts;
    }
  }

  lemma NothingAdmitted(m: Contents, layer: nat, experts: seq<nat>, bytes: nat, clock: nat)
    ensures Admit(m, layer, experts[..0], bytes, clock) == m
    ensures MissBytes(m, layer, Firsts(experts[..0]), Uniform(bytes)) == 0
  {
  }

  /** What admitting the next expert makes of the contents and the bytes paid for. */
  lemma NextAdmitted(m: Contents, layer: nat, experts: seq<nat>, bytes: nat, clock: nat, i: nat)
    requires i < |experts|
    ensures var k := Key(layer, experts[i]); var done := Admit(m, layer, experts[..i], bytes, clock);
      && Admit(m, layer, experts[..i + 1], bytes, clock)
         == (if k in done then done else done[k := Use(bytes, clock, false)])
      && MissBytes(m, layer, Firsts(experts[..i + 1]), Uniform(bytes))
         == MissBytes(m, layer, Firsts(experts[..i]), Uniform(bytes)) + (if k in done then 0 else bytes)
  {
    assert experts[..i + 1][..i] == experts[..i];
    AdmitIs(m, layer, experts[..i], bytes, clock);
    FirstsSnoc(experts, i);
    hide Firsts;
    if experts[i] in experts[..i] {
      PinsHave(layer, experts[..i]);
    } else {
      NotPinned(layer, experts[..i], experts[i]);
      assert (Firsts(experts[..i]) + [experts[i]])[..|Firsts(experts[..i])|] == Firsts(experts[..i]);
    }
  }

  /** Marking and evicting leave the misses of the route what they were. */
  lemma AdmissionCosts(m: Contents, layer: nat, experts: seq<nat>, part: seq<nat>, bytes: nat, clock: nat,
                       required: nat, capacity: nat)
    requires forall e :: e in part ==> e in experts
    ensures MissBytes(EvictFor(Mark(m, layer, experts, clock), Pins(layer, experts), required, capacity), layer, part,
      Uniform(bytes))
         == MissBytes(m, layer, part, Uniform(bytes))
  {
    hide EvictFor, Mark, MissBytes, Hits;
    var marked := Mark(m, layer, experts, clock);
    MarkIs(m, layer, experts, clock);
    EvictionIs(marked, Pins(layer, experts), required, capacity);
    PinsHave(layer, experts);
    hide Pins;
    SameCounts(EvictFor(marked, Pins(layer, experts), required, capacity), m, layer, part, Uniform(bytes));
  }

  method FindMiss(missing: seq<Miss>, expert: nat) returns (r: Option<nat>)
    ensures r.Some? ==> r.value < |missing| && missing[r.value].expert == expert
    ensures r.None? ==> forall i :: 0 <= i < |missing| ==> missing[i].expert != expert
  {
    for i := 0 to |missing|
      invariant forall j :: 0 <= j < i ==> missing[j].expert != expert
    {
      if missing[i].expert == expert {
        return Some(i);
      }
    }
    r := None;
  }

  lemma AppendUnique(entries: seq<Entry>, e: Entry)
    requires UniqueKeys(entries) && e.key !in Holding(entries)
    ensures UniqueKeys(entries + [e])
  {
    hide Holding;
    forall i | 0 <= i < |entries| ensures entries[i].key != e.key {
      HoldingHas(entries, i);
    }
  }

  lemma ListedSurvives(missing: seq<Miss>, p: nat, layer: nat)
    requires p < |missing|
    ensures forall e, s :: e != missing[p].expert && Listed(missing, layer, e, s) ==>
              Listed(SwapRemove(missing, p), layer, e, s)
  {
    forall e, s | e != missing[p].expert && Listed(missing, layer, e, s)
      ensures Listed(SwapRemove(missing, p), layer, e, s)
    {
      var rest := SwapRemove(missing, p);
      var i :| 0 <= i < |missing| && missing[i].expert == e;
      assert rest[if i == |missing| - 1 then p else i].expert == e;
    }
  }

  lemma PendingGrows(missing: seq<Miss>, m: Contents, layer: nat, done: seq<nat>, sizeOf: Key -> Option<nat>, e: nat)
    requires e !in done && Pending(missing, m, layer, done, sizeOf)
    requires forall j :: 0 <= j < |missing| ==> missing[j].expert in done
    ensures Key(layer, e) in m ==> Pending(missing, m, layer, done + [e], sizeOf)
    ensures sizeOf(Key(layer, e)).Some? ==>
      Pending(missing + [Miss(e, sizeOf(Key(layer, e)).value)], m, layer, done + [e], sizeOf)
  {
    if sizeOf(Key(layer, e)).Some? {
      var after := missing + [Miss(e, sizeOf(Key(layer, e)).value)];
      forall x | x in done + [e] && Key(layer, x) !in m ensures Listed(after, layer, x, sizeOf) {
        if x == e {
          assert after[|missing|].expert == x;
        } else {
          assert Listed(missing, layer, x, sizeOf);
          var j :| 0 <= j < |missing| && missing[j].expert == x;
          assert after[j].expert == x;
        }
      }
    }
  }

  lemma {:induction false} PlanErrorSticks(m: Contents, layer: nat, experts: seq<nat>, sizeOf: Key -> Option<nat>,
                                           n: nat)
    requires n <= |experts| && PlanError(m, layer, experts[..n], sizeOf).Some?
    ensures PlanError(m, layer, experts, sizeOf) == PlanError(m, layer, experts[..n], sizeOf)
  {
    if n < |experts| {
      assert experts[..|experts| - 1][..n] == experts[..n];
      PlanErrorSticks(m, layer, experts[..|experts| - 1], sizeOf, n);
    } else {
      assert experts[..n] == experts;
    }
  }

  lemma {:induction false} MissBytesPrefix(m: Contents, layer: nat, experts: seq<nat>, size: Key -> nat, n: nat)
    requires n <= |experts|
    ensures MissBytes(m, layer, experts[..n], size) <= MissBytes(m, layer, experts, size)
  {
    if n < |experts| {
      assert experts[..|experts| - 1][..n] == experts[..n];
      MissBytesPrefix(m, layer, experts[..|experts| - 1], size, n);
    } else {
      assert experts[..n] == experts;
    }
  }

  /** The missing experts from `i` on, not served yet, are still listed. */
  ghost predicate StillPending(missing: seq<Miss>, m: Contents, layer: nat, experts: seq<nat>, i: nat,
                               sizeOf: Key -> Option<nat>)
    requires i <= |experts|
  {
    forall e :: e in experts[i..] && e !in experts[..i] && Key(layer, e) !in m ==> Listed(missing, layer, e, sizeOf)
  }

  lemma NothingServed(missing: seq<Miss>, m: Contents, layer: nat, experts: seq<nat>, clock: nat,
                      sizeOf: Key -> Option<nat>)
    requires Pending(missing, m, layer, experts, sizeOf)
    ensures StillPending(missing, m, layer, experts, 0, sizeOf)
    ensures Firsts(experts[..0]) == [] && Hits(m, layer, []) == 0
    ensures Serve(m, layer, [], SizeOrZero(sizeOf), clock) == m && MissBytes(m, layer, [], SizeOrZero(sizeOf)) == 0
  {
  }

  lemma NextIsPending(missing: seq<Miss>, m: Contents, layer: nat, experts: seq<nat>, clock: nat, i: nat,
                      sizeOf: Key -> Option<nat>)
    requires i < |experts| && StillPending(missing, m, layer, experts, i, sizeOf)
    ensures Key(layer, experts[i]) !in Serve(m, layer, Firsts(experts[..i]), SizeOrZero(sizeOf), clock) ==>
              Listed(missing, layer, experts[i], sizeOf)
  {
    hide Listed, Firsts, Serve;
    FirstsAre(experts[..i]);
    ServeIs(m, layer, Firsts(experts[..i]), SizeOrZero(sizeOf), clock);
    assert experts[i] in experts[i..];
  }

  lemma LaterArePending(before: seq<Miss>, after: seq<Miss>, m: Contents, layer: nat, experts: seq<nat>, i: nat,
                        sizeOf: Key -> Option<nat>)
    requires i < |experts| && StillPending(before, m, layer, experts, i, sizeOf)
    requires forall e, s :: e != experts[i] && Listed(before, layer, e, s) ==> Listed(after, layer, e, s)
    ensures StillPending(after, m, layer, experts, i + 1, sizeOf)
  {
    hide Listed;
    assert experts[..i + 1] == experts[..i] + [experts[i]];
    assert experts[i..] == [experts[i]] + experts[i + 1..];
  }

  /** What serving the next expert makes of the contents and the counts: a
      repeated one is a hit and changes nothing else. */
  lemma NextServed(m: Contents, layer: nat, experts: seq<nat>, size: Key -> nat, clock: nat, i: nat)
    requires i < |experts|
    ensures var k := Key(layer, experts[i]); var before, after := Firsts(experts[..i]), Firsts(experts[..i + 1]);
      var done := Serve(m, layer, before, size, clock);
      && Serve(m, layer, after, size, clock) == done[k := Use(if k in done
         then done[k].bytes else size(k), clock, false)]
      && MissBytes(m, layer, after, size) == MissBytes(m, layer, before, size) + (if k in done then 0 else size(k))
      && |after| - Hits(m, layer, after) == |before| - Hits(m, layer, before) + (if k in done then 0 else 1)
      && Hits(m, layer, after) - |after| == Hits(m, layer, before) - |before| - (if k in done then 0 else 1)
  {
    hide Firsts, Serve, MissBytes, Hits;
    var e, before := experts[i], Firsts(experts[..i]);
    FirstsSnoc(experts, i);
    FirstsAre(experts[..i]);
    if e in experts[..i] {
      AgainServed(m, layer, before, size, clock, e);
    } else {
      FirstServed(m, layer, before, size, clock, e);
    }
  }

  /** What has been paid for so far is part of what the route costs. */
  lemma CostsGrow(m: Contents, layer: nat, experts: seq<nat>, size: Key -> nat, i: nat)
    requires i <= |experts|
    ensures MissBytes(m, layer, Firsts(experts[..i]), size) <= MissBytes(m, layer, Firsts(experts), size)
  {
    hide Firsts, MissBytes;
    var part, whole := Firsts(experts[..i]), Firsts(experts);
    FirstsPrefix(experts, i);
    assert whole[..|part|] == part;
    MissBytesPrefix(m, layer, whole, size, |part|);
  }

  lemma FirstServed(m: Contents, layer: nat, done: seq<nat>, size: Key -> nat, clock: nat, e: nat)
    requires e !in done
    ensures var k := Key(layer, e); var served := Serve(m, layer, done, size, clock);
      && (k in served <==> k in m)
      && Serve(m, layer, done + [e], size, clock) == served[k := Use(if k in served
         then served[k].bytes else size(k), clock, false)]
      && MissBytes(m, layer, done + [e], size) == MissBytes(m, layer, done, size) + (if k in m then 0 else size(k))
      && Hits(m, layer, done + [e]) == Hits(m, layer, done) + (if k in m then 1 else 0)
  {
    assert (done + [e])[..|done|] == done;
    NotPinned(layer, done, e);
    ServeIs(m, layer, done, size, clock);
    hide Pins;
  }

  lemma NotPinned(layer: nat, experts: seq<nat>, e: nat)
    requires e !in experts
    ensures Key(layer, e) !in Pins(layer, experts)
  {
  }

  lemma AgainServed(m: Contents, layer: nat, done: seq<nat>, size: Key -> nat, clock: nat, e: nat)
    requires e in done
    ensures var served := Serve(m, layer, done, size, clock); var k := Key(layer, e);
      k in served && served[k := Use(served[k].bytes, clock, false)] == served
  {
    ServeIs(m, layer, done, size, clock);
    hide Serve;
    PinsHave(layer, done);
  }

  /** Eviction changes neither what the route hits nor what it misses. */
  lemma {:induction false} SameCounts(m: Contents, n: Contents, layer: nat, experts: seq<nat>, size: Key -> nat)
    requires forall e :: e in experts ==> (Key(layer, e) in m <==> Key(layer, e) in n)
    ensures Hits(m, layer, experts) == Hits(n, layer, experts)
    ensures MissBytes(m, layer, experts, size) == MissBytes(n, layer, experts, size)
  {
    if experts != [] {
      SameCounts(m, n, layer, experts[..|experts| - 1], size);
    }
  }

  lemma PinsHave(layer: nat, experts: seq<nat>)
    ensures forall e :: e in experts ==> Key(layer, e) in Pins(layer, experts)
  {
  }

  lemma EvictionKeepsCounts(m: Contents, layer: nat, experts: seq<nat>, size: Key -> nat, required: nat, capacity: nat)
    ensures var kept := EvictFor(m, Pins(layer, experts), required, capacity);
      Hits(kept, layer, experts) == Hits(m, layer, experts)
      && MissBytes(kept, layer, experts, size) == MissBytes(m, layer, experts, size)
  {
    hide EvictFor, Pins;
    EvictionIs(m, Pins(layer, experts), required, capacity);
    PinsHave(layer, experts);
    SameCounts(EvictFor(m, Pins(layer, experts), required, capacity), m, layer, experts, size);
  }

  lemma PendingAfterEviction(missing: seq<Miss>, m: Contents, layer: nat, experts: seq<nat>, sizeOf: Key -> Option<nat>,
                             required: nat, capacity: nat)
    requires Pending(missing, m, layer, experts, sizeOf)
    ensures Pending(missing, EvictFor(m, Pins(layer, experts), required, capacity), layer, experts, sizeOf)
  {
    hide EvictFor, Pins, Listed;
    EvictionIs(m, Pins(layer, experts), required, capacity);
    PinsHave(layer, experts);
  }
}
