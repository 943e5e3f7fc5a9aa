/** Replaying an exact-router trace through the tile cache, and the capacity a
    route needs under each tiling of the canonical experts. */
module TileReplay {
  import opened Wrappers
  import opened LruModel
  import opened LruTheorems
  import opened TileCache

  // ------------------------------------------------------------------------
  // Tilings

  const Q4K_BLOCK_BYTES := 144
  const EXPERT_NEURONS := 512
  const EXPERT_HIDDEN := 2048
  const DOWN_HIDDEN := 2048
  const ROUTED_EXPERTS_PER_TOKEN := 8

  datatype NeuronWidth = Whole | N64 | N128 | N256 | Mixed128

  function GateUpRowWidth(width: NeuronWidth): nat {
    match width
    case Whole => EXPERT_NEURONS
    case Mixed128 => 128
    case N128 => 128
    case N64 => 64
    case N256 => 256
  }

  function DownColWidth(width: NeuronWidth): nat {
    if width.Whole? || width.Mixed128? then EXPERT_NEURONS else 256
  }

  const GATE_BYTES := EXPERT_NEURONS * (EXPERT_HIDDEN / 256) * Q4K_BLOCK_BYTES
  const DOWN_BYTES := DOWN_HIDDEN * (EXPERT_NEURONS / 256) * Q4K_BLOCK_BYTES

  function Repeat(n: nat, bytes: nat): seq<nat> {
    seq(n, _ => bytes)
  }

  function GateUpTileBytes(width: NeuronWidth): nat {
    GateUpRowWidth(width) * (EXPERT_HIDDEN / 256) * Q4K_BLOCK_BYTES
  }

  function DownTileBytes(width: NeuronWidth): nat {
    DOWN_HIDDEN * (DownColWidth(width) / 256) * Q4K_BLOCK_BYTES
  }

  function TiledSizes(gateUpCount: nat, gateUp: nat, downCount: nat, down: nat): seq<nat> {
    Repeat(gateUpCount, gateUp) + Repeat(gateUpCount, gateUp) + Repeat(downCount, down)
  }

  /** Byte sizes of every tile of one canonical expert, in physical order. */
  function TileSizes(width: NeuronWidth): seq<nat> {
    if width.Whole? then [GATE_BYTES + GATE_BYTES, DOWN_BYTES]
    else TiledSizes(GATE_BYTES / GateUpTileBytes(width), GateUpTileBytes(width),
                    DOWN_BYTES / DownTileBytes(width), DownTileBytes(width))
  }

  function Sum(sizes: seq<nat>): nat {
    if sizes == [] then 0 else sizes[0] + Sum(sizes[1..])
  }

  function MinimumRouteCapacity(width: NeuronWidth): nat {
    Sum(TileSizes(width)) * ROUTED_EXPERTS_PER_TOKEN
  }

  lemma {:induction false} SumRepeat(n: nat, bytes: nat)
    ensures Sum(Repeat(n, bytes)) == n * bytes
  {
    if n != 0 {
      assert Repeat(n, bytes)[1..] == Repeat(n - 1, bytes);
      SumRepeat(n - 1, bytes);
      assert n * bytes == bytes + (n - 1) * bytes;
    }
  }

  lemma {:induction false} SumAppend(a: seq<nat>, b: seq<nat>)
    ensures Sum(a + b) == Sum(a) + Sum(b)
  {
    if a == [] {
      assert a + b == b;
    } else {
      assert (a + b)[1..] == a[1..] + b;
      SumAppend(a[1..], b);
    }
  }

  lemma SumOfTiles(g: nat, gateUp: nat, d: nat, down: nat)
    ensures Sum(TiledSizes(g, gateUp, d, down)) == 2 * (g * gateUp) + d * down
  {
    SumAppend(Repeat(g, gateUp) + Repeat(g, gateUp), Repeat(d, down));
    SumAppend(Repeat(g, gateUp), Repeat(g, gateUp));
    SumRepeat(g, gateUp);
    SumRepeat(d, down);
  }

  /** Every offered tile width divides its matrix, into aligned tiles. */
  lemma TilesDivide(width: NeuronWidth)
    requires !width.Whole?
    ensures GateUpTileBytes(width) % 4096 == 0 && DownTileBytes(width) % 4096 == 0
    ensures GATE_BYTES / GateUpTileBytes(width) * GateUpTileBytes(width) == 589_824
    ensures DOWN_BYTES / DownTileBytes(width) * DownTileBytes(width) == 589_824
  {
    assert GATE_BYTES == DOWN_BYTES == 589_824;
    match width {
      case N64 => assert GateUpTileBytes(width) == 73_728 && DownTileBytes(width) == 294_912;
      case N128 => assert GateUpTileBytes(width) == 147_456 && DownTileBytes(width) == 294_912;
      case N256 => assert GateUpTileBytes(width) == 294_912 && DownTileBytes(width) == 294_912;
      case Mixed128 => assert GateUpTileBytes(width) == 147_456 && DownTileBytes(width) == 589_824;
    }
  }

  lemma TiledSum(width: NeuronWidth)
    requires !width.Whole?
    ensures Sum(TileSizes(width)) == 3 * 589_824
  {
    TilesDivide(width);
    hide *;
    var g, gateUp := GATE_BYTES / GateUpTileBytes(width), GateUpTileBytes(width);
    var d, down := DOWN_BYTES / DownTileBytes(width), DownTileBytes(width);
    SumOfTiles(g, gateUp, d, down);
    assert TileSizes(width) == TiledSizes(g, gateUp, d, down) by { TiledShape(width); }
  }

  lemma TiledShape(width: NeuronWidth)
    requires !width.Whole?
    ensures GateUpTileBytes(width) != 0 && DownTileBytes(width) != 0
    ensures TileSizes(width) == TiledSizes(GATE_BYTES / GateUpTileBytes(width), GateUpTileBytes(width),
                                           DOWN_BYTES / DownTileBytes(width), DownTileBytes(width))
  {
  }

  lemma WholeSum()
    ensures Sum(TileSizes(Whole)) == 3 * 589_824
  {
    assert TileSizes(Whole)[1..] == [DOWN_BYTES] && [DOWN_BYTES][1..] == [];
  }

  /** Tiling changes granularity, not the pin set: eight whole experts. */
  lemma MinimumRouteCapacityIsEightExperts(width: NeuronWidth)
    ensures MinimumRouteCapacity(width) == 8 * 3 * 589_824
  {
    hide Sum, TileSizes;
    if width.Whole? {
      WholeSum();
    } else {
      TiledSum(width);
    }
  }

  lemma TiledMembers(g: nat, gateUp: nat, d: nat, down: nat)
    ensures forall bytes :: bytes in TiledSizes(g, gateUp, d, down) ==> bytes == gateUp || bytes == down
  {
  }

  lemma AlignedIsItself(bytes: nat)
    requires bytes % 4096 == 0
    ensures RoundUp(bytes) == bytes
  {
  }

  /** Every tile of every tiling is 4096-aligned, so replays read no padding. */
  lemma TileSizesAreAligned(width: NeuronWidth)
    ensures forall bytes :: bytes in TileSizes(width) ==> bytes % 4096 == 0 && RoundUp(bytes) == bytes
  {
    if !width.Whole? {
      TilesDivide(width);
      TiledShape(width);
      hide *;
      TiledMembers(GATE_BYTES / GateUpTileBytes(width), GateUpTileBytes(width),
                   DOWN_BYTES / DownTileBytes(width), DownTileBytes(width));
      AlignedIsItself(GateUpTileBytes(width));
      AlignedIsItself(DownTileBytes(width));
    } else {
      AlignedIsItself(GATE_BYTES + GATE_BYTES);
      AlignedIsItself(DOWN_BYTES);
    }
  }

  // ------------------------------------------------------------------------
  // Routes as demands

  function SizeIn(sizes: seq<nat>): TileKey -> nat {
    (key: TileKey) => if key.tileIndex < |sizes| then sizes[key.tileIndex] else 0
  }

  lemma {:induction false} DemandsAreOf(layer: nat, experts: seq<nat>, sizes: seq<nat>)
    ensures forall d :: d in Demands(layer, experts, sizes) ==>
              d.key.layer == layer && d.key.expert in experts && d.key.tileIndex < |sizes|
                && d.bytes == sizes[d.key.tileIndex]
    decreases |experts|
  {
    if experts != [] {
      DemandsAreOf(layer, experts[..|experts| - 1], sizes);
    }
  }

  lemma {:induction false} TotalOfTiles(layer: nat, expert: nat, sizes: seq<nat>, n: nat)
    requires n <= |sizes|
    ensures Total(TilesOf(layer, expert, sizes)[..n]) == Sum(sizes[..n])
  {
    if n != 0 {
      var all := TilesOf(layer, expert, sizes);
      TotalOfTiles(layer, expert, sizes, n - 1);
      assert all[..n] == all[..n - 1] + [all[n - 1]] && sizes[..n] == sizes[..n - 1] + [sizes[n - 1]];
      TotalAppend(all[..n - 1], [all[n - 1]]);
      SumAppend(sizes[..n - 1], [sizes[n - 1]]);
      assert [all[n - 1]][1..] == [] && [sizes[n - 1]][1..] == [];
    }
  }

  /** A route of distinct experts asks for each of its tiles once, at its
      canonical size, and for every byte of its experts. */
  lemma {:induction false} RouteDemands(layer: nat, experts: seq<nat>, sizes: seq<nat>)
    requires Distinct(experts)
    ensures GoodRoute(Demands(layer, experts, sizes), SizeIn(sizes))
    ensures Total(Demands(layer, experts, sizes)) == |experts| * Sum(sizes)
    decreases |experts|
  {
    if experts != [] {
      var n := |experts| - 1;
      var earlier, here := Demands(layer, experts[..n], sizes), TilesOf(layer, experts[n], sizes);
      RouteDemands(layer, experts[..n], sizes);
      DemandsAreOf(layer, experts[..n], sizes);
      DemandsAreOf(layer, experts, sizes);
      TotalOfTiles(layer, experts[n], sizes, |sizes|);
      assert here[..|sizes|] == here && sizes[..|sizes|] == sizes;
      TotalAppend(earlier, here);
      forall i: nat, j: nat | i < |earlier| && j < |here| ensures earlier[i].key != here[j].key {
        assert earlier[i] in earlier;
      }
      assert |experts| * Sum(sizes) == n * Sum(sizes) + Sum(sizes);
    }
  }

  // ------------------------------------------------------------------------
  // The replay

  datatype CachePolicyKind = Lru | Lfu | DecayedCostAware

  datatype RouteLayer = RouteLayer(layer: nat, expertIds: seq<nat>)

  /** A recorded trace: for each decode step, the route of each layer. */
  datatype RouteTrace = RouteTrace(schemaVersion: nat, steps: seq<seq<RouteLayer>>)

  datatype ReplayError = UnsupportedSchema | WrongTileTable | ZeroCapacity | PolicyNotLru | RouteTooLarge

  function LayerEvents(layers: seq<RouteLayer>, sizes: seq<nat>): seq<seq<Demand>> {
    seq(|layers|, i requires 0 <= i < |layers| => Demands(layers[i].layer, layers[i].expertIds, sizes))
  }

  function Events(steps: seq<seq<RouteLayer>>, sizes: seq<nat>): seq<seq<Demand>> {
    if steps == [] then []
    else Events(steps[..|steps| - 1], sizes) + LayerEvents(steps[|steps| - 1], sizes)
  }

  /** The answer of a replay, from what the recency model says. */
  function Answer(r: RouteOutcome): Result<TileReplayResult, ReplayError> {
    match r
    case Routed(st) => Success(st.result)
    case TooSmall(_) => Failure(RouteTooLarge)
  }

  lemma AnswerOfRouted(st: CacheState)
    ensures Answer(Routed(st)) == Success(st.result)
  {
  }

  lemma AnswerOfFailed(r: RouteOutcome)
    requires r.TooSmall?
    ensures Answer(r) == Failure(RouteTooLarge)
  {
  }

  /** A trace that failed at one route fails as a whole. */
  lemma {:induction false} TooSmallSticks(capacity: nat, events: seq<seq<Demand>>, n: nat)
    requires n <= |events| && Replay(capacity, events[..n]).TooSmall?
    ensures Replay(capacity, events).TooSmall?
    decreases |events|
  {
    if n < |events| {
      assert events[..|events| - 1][..n] == events[..n];
      TooSmallSticks(capacity, events[..|events| - 1], n);
    } else {
      assert events[..n] == events;
    }
  }

  /** Replays the steps in order, up to the first route that does not fit. */
  method ReplaySteps(cache: TileReplayCache, steps: seq<seq<RouteLayer>>, sizes: seq<nat>) returns (ok: bool)
    requires cache.Valid() && cache.State() == EMPTY
    modifies cache
    ensures cache.Valid()
    ensures var outcome := Replay(cache.capacity, Events(steps, sizes));
      if ok then outcome == Routed(cache.State()) else outcome.TooSmall?
  {
    hide Replay, Events, TileReplayCache.Valid, TileReplayCache.State;
    NothingReplayed(cache.capacity, steps, sizes);
    for s := 0 to |steps|
      invariant cache.Valid()
      invariant Replay(cache.capacity, Events(steps[..s], sizes)) == Routed(cache.State())
    {
      EventsSnoc(steps, sizes, s);
      ok := ReplayStep(cache, steps[s], sizes, Events(steps[..s], sizes));
      if !ok {
        FailedStep(cache.capacity, steps, sizes, s);
        return;
      }
    }
    assert steps[..|steps|] == steps;
    ok := true;
  }

  method ReplayTraceTiled(trace: RouteTrace, capacity: nat, policy: CachePolicyKind, width: NeuronWidth,
                          sizes: seq<nat>)
      returns (r: Result<TileReplayResult, ReplayError>)
    ensures r ==
      if trace.schemaVersion != 1 then Failure(UnsupportedSchema)
      else if |sizes| != |TileSizes(width)| then Failure(WrongTileTable)
      else if capacity == 0 then Failure(ZeroCapacity)
      else if policy != Lru then Failure(PolicyNotLru)
      else Answer(Replay(capacity, Events(trace.steps, sizes)))
  {
    if trace.schemaVersion != 1 {
      return Failure(UnsupportedSchema);
    }
    if |sizes| != |TileSizes(width)| {
      return Failure(WrongTileTable);
    }
    if capacity == 0 {
      return Failure(ZeroCapacity);
    }
    if policy != Lru {
      return Failure(PolicyNotLru);
    }
    hide TileSizes, Replay, Events, TileReplayCache.Valid, Answer;
    var cache := new TileReplayCache(capacity);
    var ok := ReplaySteps(cache, trace.steps, sizes);
    ghost var outcome := Replay(capacity, Events(trace.steps, sizes));
    if !ok {
      AnswerOfFailed(outcome);
      return Failure(RouteTooLarge);
    }
    AnswerOfRouted(cache.State());
    return Success(cache.result);
  }

  lemma NothingReplayed(capacity: nat, steps: seq<seq<RouteLayer>>, sizes: seq<nat>)
    ensures Replay(capacity, Events(steps[..0], sizes)) == Routed(EMPTY)
  {
  }

  lemma FailedStep(capacity: nat, steps: seq<seq<RouteLayer>>, sizes: seq<nat>, s: nat)
    requires s < |steps| && Replay(capacity, Events(steps[..s + 1], sizes)).TooSmall?
    ensures Replay(capacity, Events(steps, sizes)).TooSmall?
  {
    hide Route;
    EventsPrefix(steps, sizes, s + 1);
    var all, next := Events(steps, sizes), Events(steps[..s + 1], sizes);
    assert next == all[..|next|];
    TooSmallSticks(capacity, all, |next|);
  }

  /** The routes of one decode step, layer by layer, after the events `done`. */
  method ReplayStep(cache: TileReplayCache, layers: seq<RouteLayer>, sizes: seq<nat>, ghost done: seq<seq<Demand>>)
      returns (ok: bool)
    requires cache.Valid() && Replay(cache.capacity, done) == Routed(cache.State())
    modifies cache
    ensures cache.Valid()
    ensures var r := Replay(cache.capacity, done + LayerEvents(layers, sizes));
      if ok then r == Routed(cache.State()) else r.TooSmall?
  {
    hide Route, Demands, Replay;
    ghost var here := LayerEvents(layers, sizes);
    assert done + here[..0] == done;
    for l := 0 to |layers|
      invariant cache.Valid() && Replay(cache.capacity, done + here[..l]) == Routed(cache.State())
    {
      ghost var next := done + here[..l + 1];
      assert next[..|next| - 1] == done + here[..l] && next[|next| - 1] == here[l];
      ReplayOneMore(cache.capacity, next);
      ok := cache.RouteExact(layers[l].layer, layers[l].expertIds, sizes);
      if !ok {
        ghost var all := done + here;
        assert next == all[..|next|];
        TooSmallSticks(cache.capacity, all, |next|);
        return;
      }
    }
    assert here[..|layers|] == here;
    ok := true;
  }

  lemma ReplayOneMore(capacity: nat, events: seq<seq<Demand>>)
    requires events != [] && Replay(capacity, events[..|events| - 1]).Routed?
    ensures Replay(capacity, events)
         == Route(capacity, Replay(capacity, events[..|events| - 1]).state, events[|events| - 1])
  {
  }

  lemma EventsSnoc(steps: seq<seq<RouteLayer>>, sizes: seq<nat>, s: nat)
    requires s < |steps|
    ensures var here := LayerEvents(steps[s], sizes);
      && Events(steps[..s + 1], sizes) == Events(steps[..s], sizes) + here
      && here[..|steps[s]|] == here
  {
    assert steps[..s + 1][..s] == steps[..s];
  }

  lemma {:induction false} EventsPrefix(steps: seq<seq<RouteLayer>>, sizes: seq<nat>, s: nat)
    requires s <= |steps|
    ensures Events(steps[..s], sizes) <= Events(steps, sizes)
    decreases |steps|
  {
    if s < |steps| {
      var n := |steps| - 1;
      assert steps[..n][..s] == steps[..s];
      EventsPrefix(steps[..n], sizes, s);
    } else {
      assert steps[..s] == steps;
    }
  }

  // ------------------------------------------------------------------------
  // What a canonical replay promises

  /** Every recorded route names eight distinct experts. */
  ghost predicate RoutesOfEight(steps: seq<seq<RouteLayer>>) {
    forall s, l :: 0 <= s < |steps| && 0 <= l < |steps[s]| ==>
      |steps[s][l].expertIds| == ROUTED_EXPERTS_PER_TOKEN && Distinct(steps[s][l].expertIds)
  }

  lemma {:induction false} CanonicalEvents(steps: seq<seq<RouteLayer>>, width: NeuronWidth)
    requires RoutesOfEight(steps)
    ensures GoodTrace(Events(steps, TileSizes(width)), SizeIn(TileSizes(width)))
    ensures forall i :: 0 <= i < |Events(steps, TileSizes(width))| ==>
              Total(Events(steps, TileSizes(width))[i]) == MinimumRouteCapacity(width)
    decreases |steps|
  {
    hide TileSizes, Total, Demands;
    if steps != [] {
      var n := |steps| - 1;
      var sizes := TileSizes(width);
      CanonicalEvents(steps[..n], width);
      var layers := steps[n];
      forall l | 0 <= l < |layers|
        ensures GoodRoute(Demands(layers[l].layer, layers[l].expertIds, sizes), SizeIn(sizes))
        ensures Total(Demands(layers[l].layer, layers[l].expertIds, sizes)) == MinimumRouteCapacity(width)
      {
        assert RoutesOfEight(steps) && Distinct(steps[n][l].expertIds);
        RouteDemands(layers[l].layer, layers[l].expertIds, sizes);
      }
    }
  }

  /** Main result: under every tiling a trace of exact routes replays exactly
      when it is empty or the capacity holds eight experts; the books then
      balance, and no replay at a larger capacity has fewer hits. */
  lemma CanonicalReplay(steps: seq<seq<RouteLayer>>, width: NeuronWidth, c: nat, d: nat)
    requires RoutesOfEight(steps) && c <= d
    ensures var events := Events(steps, TileSizes(width));
      && (Replay(c, events).Routed? <==> events == [] || MinimumRouteCapacity(width) <= c)
      && (Replay(c, events).Routed? ==>
            && Balanced(Replay(c, events).state, c)
            && Replay(d, events).Routed?
            && Replay(c, events).state.result.tileHits <= Replay(d, events).state.result.tileHits)
  {
    hide TileSizes, Replay, Total, GoodTrace, Balanced;
    var events, sizeOf := Events(steps, TileSizes(width)), SizeIn(TileSizes(width));
    CanonicalEvents(steps, width);
    ReplaySucceedsIffAdmissible(c, events, sizeOf);
    if events != [] {
      assert Total(events[0]) == MinimumRouteCapacity(width);
    }
    if Admissible(events, c) {
      ReplayBalances(c, events, sizeOf);
      LargerCacheIncludesSmaller(events, c, d, sizeOf);
    }
  }
}
