/** What a prefetch replay does, stated over the trace and the predictor alone:
    which predictions are issued, when they arrive, and what is counted. */
module ReplayForesight {
  import opened Wrappers
  import opened ReplayModel
  import opened ReplayCaches
  import Traces = TileReplay

  type RouteLayer = Traces.RouteLayer

  /** What the predictor suggests for the layer after a history of routes, within
      a budget and given what is resident. */
  type Predictor = (seq<RouteLayer>, nat, nat, set<Key>) -> seq<nat>

  /** The routes of a trace, in the order they are replayed. */
  function Flat(steps: seq<seq<RouteLayer>>): seq<RouteLayer> {
    if steps == [] then [] else Flat(steps[..|steps| - 1]) + steps[|steps| - 1]
  }

  /** For each layer of a step the one predicted next: the layer after it, and at
      the end of the step layer 0. */
  function Ahead(layers: seq<RouteLayer>): (r: seq<nat>)
    ensures |r| == |layers|
  {
    seq(|layers|, l requires 0 <= l < |layers| => if l + 1 < |layers| then layers[l + 1].layer else 0)
  }

  /** The layer predicted after each route of a trace. */
  function Targets(steps: seq<seq<RouteLayer>>): (r: seq<nat>)
    ensures |r| == |Flat(steps)|
  {
    if steps == [] then [] else Targets(steps[..|steps| - 1]) + Ahead(steps[|steps| - 1])
  }

  lemma FlatSnoc(steps: seq<seq<RouteLayer>>, s: nat)
    requires s < |steps|
    ensures Flat(steps[..s + 1]) == Flat(steps[..s]) + steps[s]
  {
    assert steps[..s + 1][..s] == steps[..s];
  }

  lemma {:induction false} FlatPrefix(steps: seq<seq<RouteLayer>>, s: nat, l: nat)
    requires s < |steps| && l <= |steps[s]|
    ensures Flat(steps[..s]) + steps[s][..l] <= Flat(steps)
    decreases |steps|
  {
    var n := |steps| - 1;
    if s < n {
      FlatPrefix(steps[..n], s, l);
      assert steps[..n][..s] == steps[..s];
    }
  }

  /** The target after layer `l` of step `s`, where it stands in the trace. */
  lemma {:induction false} TargetsAre(steps: seq<seq<RouteLayer>>, s: nat, l: nat)
    requires s < |steps| && l < |steps[s]|
    ensures var k := |Flat(steps[..s])| + l;
      && k < |Flat(steps)| && Flat(steps)[k] == steps[s][l]
      && Targets(steps)[k] == if l + 1 < |steps[s]| then steps[s][l + 1].layer else 0
    decreases |steps|
  {
    var n := |steps| - 1;
    if s < n {
      TargetsAre(steps[..n], s, l);
      assert steps[..n][..s] == steps[..s];
    }
  }

  // ------------------------------------------------------------------------
  // One event

  /** An expert arrives on probation, unless it is resident. */
  ghost function Arrive(m: Contents, k: Key, bytes: nat, capacity: nat, clock: nat): Contents {
    if k in m then m else EvictFor(m, {}, bytes, capacity)[k := Use(bytes, clock, true)]
  }

  ghost function ArriveAll(m: Contents, layer: nat, experts: seq<nat>, bytes: nat, capacity: nat,
                           clock: nat): Contents
  {
    if experts == [] then m
    else
      Arrive(ArriveAll(m, layer, experts[..|experts| - 1], bytes, capacity, clock), Key(layer, experts[|experts| - 1]),
             bytes, capacity, clock)
  }

  /** How many of them were not resident when they arrived. */
  ghost function Arrivals(m: Contents, layer: nat, experts: seq<nat>, bytes: nat, capacity: nat, clock: nat): nat {
    if experts == [] then 0
    else
      var before := experts[..|experts| - 1];
      Arrivals(m, layer, before, bytes, capacity, clock)
      + if Key(layer, experts[|experts| - 1]) in ArriveAll(m, layer, before, bytes, capacity, clock) then 0 else 1
  }

  /** Demanding a route: hits are marked, room is made for every missing expert as
      often as it is named, and the missing are admitted. */
  ghost function Demand(m: Contents, route: RouteLayer, bytes: nat, capacity: nat, clock: nat): Contents {
    var layer, experts := route.layer, route.expertIds;
    Admit(EvictFor(Mark(m, layer, experts, clock), Pins(layer, experts), MissBytes(m, layer, experts, Uniform(bytes)),
      capacity),
          layer, experts, bytes, clock)
  }

  // ------------------------------------------------------------------------
  // A whole replay

  /** A trace's routes with the layer predicted after each, and what it is replayed with. */
  datatype Replayed = Replayed(routes: seq<RouteLayer>, targets: seq<nat>, capacity: nat, bytes: nat, depth: nat,
                               predict: Predictor)

  /** The prediction that is out when event `k` begins: the one issued after the
      event before it, from the routes so far and what was then resident. */
  ghost function Issued(t: Replayed, k: nat): seq<nat>
    requires k <= |t.routes| == |t.targets|
    decreases k, 1
  {
    if k == 0 || t.depth == 0 then []
    else (t.predict)(t.routes[..k], t.targets[k - 1], t.depth, Left(t, k).Keys)
  }

  /** The layer it is for. */
  function Target(t: Replayed, k: nat): nat
    requires k <= |t.routes| == |t.targets|
  {
    if k == 0 then 0 else t.targets[k - 1]
  }

  /** What is resident when event `k` demands its route: the prediction has arrived. */
  ghost function Found(t: Replayed, k: nat): Contents
    requires k <= |t.routes| == |t.targets|
    decreases k, 2
  {
    ArriveAll(Left(t, k), Target(t, k), Issued(t, k), t.bytes, t.capacity, k)
  }

  /** What the first `k` events leave resident. */
  ghost function Left(t: Replayed, k: nat): Contents
    requires k <= |t.routes| == |t.targets|
    decreases k, 0
  {
    if k == 0 then map[] else Demand(Found(t, k - 1), t.routes[k - 1], t.bytes, t.capacity, k)
  }

  /** The sum of `f` over the first `n` events. */
  ghost function Sum(n: nat, f: nat -> nat): nat {
    if n == 0 then 0 else Sum(n - 1, f) + f(n - 1)
  }

  ghost predicate During(t: Replayed, k: nat) {
    k < |t.routes| == |t.targets|
  }

  /** Length of the prediction that arrives for event `k`. */
  ghost function Expected(t: Replayed, k: nat): nat {
    if During(t, k) then |Issued(t, k)| else 0
  }

  /** Demands of event `k` that were predicted for it. */
  ghost function Recalled(t: Replayed, k: nat): nat {
    if During(t, k) then Foreseen(t.routes[k].expertIds, Issued(t, k)) else 0
  }

  /** Predicted experts that were fetched for event `k`. */
  ghost function Fetched(t: Replayed, k: nat): nat {
    if During(t, k) then Arrivals(Left(t, k), Target(t, k), Issued(t, k), t.bytes, t.capacity, k) else 0
  }

  /** Distinct demands of event `k` first served by a prediction made for it. */
  ghost function Useful(t: Replayed, k: nat): nat {
    if During(t, k) then Served(Found(t, k), t.routes[k].layer, Firsts(t.routes[k].expertIds), Issued(t, k)) else 0
  }

  ghost function Hit(t: Replayed, k: nat): nat {
    if During(t, k) then Hits(Found(t, k), t.routes[k].layer, t.routes[k].expertIds) else 0
  }

  ghost function Paid(t: Replayed, k: nat): nat {
    if During(t, k) then MissBytes(Found(t, k), t.routes[k].layer, Firsts(t.routes[k].expertIds), Uniform(t.bytes))
      else 0
  }

  /** Bytes of prefetched experts that event `k` is the first to demand. */
  ghost function Redeemed(t: Replayed, k: nat): nat {
    if During(t, k) then Promoted(Found(t, k), t.routes[k].layer, Firsts(t.routes[k].expertIds)) else 0
  }

  /** What the counters say after `n` events, each a sum over the events. Of the
      bytes prefetched those are wasted that were neither demanded nor are left. */
  ghost predicate Counts(t: Replayed, n: nat, result: PrefetchReplayResult)
    requires n <= |t.routes| == |t.targets|
  {
    && result.routeEvents == n
    && result.hits == Sum(n, k => Hit(t, k))
    && result.demandMissBytes == Sum(n, k => Paid(t, k))
    && result.prefetched == Sum(n, k => Fetched(t, k))
    && result.precisionDenominator == Sum(n, k => Expected(t, k))
    && result.precisionNumerator == result.prefetchHits == Sum(n, k => Useful(t, k))
    && result.recallNumerator == Sum(n, k => Recalled(t, k))
    && result.recallDenominator == ROUTED * n
    && result.prefetchWastedBytes + Sum(n, k => Redeemed(t, k)) + Bytes(OnProbation(Left(t, n)))
       == t.bytes * result.prefetched
  }

  /** Arriving one after another. */
  lemma ArriveNext(m: Contents, layer: nat, experts: seq<nat>, i: nat, bytes: nat, capacity: nat, clock: nat)
    requires i < |experts|
    ensures var before := ArriveAll(m, layer, experts[..i], bytes, capacity, clock);
      && ArriveAll(m, layer, experts[..i + 1], bytes, capacity, clock)
         == Arrive(before, Key(layer, experts[i]), bytes, capacity, clock)
      && Arrivals(m, layer, experts[..i + 1], bytes, capacity, clock)
         == Arrivals(m, layer, experts[..i], bytes, capacity, clock) + if Key(layer, experts[i]) in before then 0 else 1
  {
    hide Arrive;
    assert experts[..i + 1][..i] == experts[..i];
  }

  /** Without a budget nothing is ever predicted. */
  lemma NoneIssued(t: Replayed, k: nat)
    requires k <= |t.routes| == |t.targets| && t.depth == 0
    ensures Issued(t, k) == [] && Found(t, k) == Left(t, k)
    ensures During(t, k) ==> Fetched(t, k) == 0
  {
  }
}
