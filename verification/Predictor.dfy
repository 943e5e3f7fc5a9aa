/** The route-transition predictor: scores decayed lazily, on touch and on
    reading, against the eager decay they stand for. */
module Predictor {
  import opened Wrappers
  import opened ReplayModel

  const DECAY := 0.97

  datatype Score = Score(value: real, lastEvent: nat)

  type Table = map<Key, map<Key, Score>>

  /** One observed route and the one that followed it. */
  datatype Observation = Observation(fromLayer: nat, fromRoute: seq<nat>, toLayer: nat, toRoute: seq<nat>)

  function Power(n: nat): real {
    if n == 0 then 1.0 else DECAY * Power(n - 1)
  }

  function Times(x: real, y: real): real {
    x * y
  }

  /** How often an observation shows `to` after `from`. */
  function Pairs(o: Observation, from: Key, to: Key): nat {
    if from.layer == o.fromLayer && to.layer == o.toLayer
    then multiset(o.fromRoute)[from.expert] * multiset(o.toRoute)[to.expert] else 0
  }

  /** The score as its definition has it: every event decays it, every sighting
      adds one. */
  function Weight(history: seq<Observation>, from: Key, to: Key): real {
    if history == [] then 0.0
    else DECAY * Weight(history[..|history| - 1], from, to) + Pairs(history[|history| - 1], from, to) as real
  }

  /** Some observation shows `to` after `from`. */
  ghost predicate Sighted(history: seq<Observation>, from: Key, to: Key) {
    exists k :: 0 <= k < |history| && Pairs(history[k], from, to) > 0
  }

  lemma SightedSnoc(history: seq<Observation>, o: Observation, from: Key, to: Key)
    ensures Sighted(history + [o], from, to) <==> Sighted(history, from, to) || Pairs(o, from, to) > 0
  {
    hide Pairs;
    var longer := history + [o];
    if Sighted(history, from, to) {
      var k :| 0 <= k < |history| && Pairs(history[k], from, to) > 0;
      assert longer[k] == history[k];
    }
    assert longer[|history|] == o;
  }

  /** Each sighting, decayed by the events since. */
  function Sightings(history: seq<Observation>, n: nat, now: nat, from: Key, to: Key): real
    requires n <= |history| && n <= now
  {
    if n == 0 then 0.0
    else Sightings(history, n - 1, now, from, to) + Times(Pairs(history[n - 1], from, to) as real, Power(now - n))
  }

  lemma {:induction false} WeightIsDecayedSightings(history: seq<Observation>, n: nat, now: nat, from: Key, to: Key)
    requires n <= |history| && n <= now
    ensures Times(Weight(history[..n], from, to), Power(now - n)) == Sightings(history, n, now, from, to)
  {
    hide Times, Pairs;
    if n == 0 {
      NothingTimes(Power(now));
    } else {
      WeightIsDecayedSightings(history, n - 1, now, from, to);
      assert history[..n][..n - 1] == history[..n - 1];
      Distribute(Weight(history[..n - 1], from, to), Pairs(history[n - 1], from, to) as real, Power(now - n));
    }
  }

  lemma NothingTimes(p: real)
    ensures Times(0.0, p) == 0.0
  {
  }

  lemma Distribute(w: real, c: real, p: real)
    ensures Times(DECAY * w + c, p) == Times(w, DECAY * p) + Times(c, p)
  {
  }

  // ------------------------------------------------------------------------
  // The stored scores

  function Stored(table: Table, from: Key, to: Key): Option<Score> {
    if from in table && to in table[from] then Some(table[from][to]) else None
  }

  /** What is stored stands for `w` at event `now`. */
  ghost predicate Stands(table: Table, now: nat, from: Key, to: Key, w: real) {
    match Stored(table, from, to)
    case None => w == 0.0
    case Some(s) => s.lastEvent <= now && s.value * Power(now - s.lastEvent) == w
  }

  /** Letting an event pass decays what every score stands for. */
  lemma EventPasses(table: Table, now: nat, from: Key, to: Key, w: real)
    requires Stands(table, now, from, to, w)
    ensures Stands(table, now + 1, from, to, DECAY * w)
  {
    match Stored(table, from, to)
    case None =>
    case Some(s) =>
      assert Power(now + 1 - s.lastEvent) == DECAY * Power(now - s.lastEvent);
      Rearrange(s.value, Power(now - s.lastEvent));
  }

  lemma Rearrange(v: real, p: real)
    ensures v * (DECAY * p) == DECAY * (v * p)
  {
  }

  function TouchedScore(table: Table, now: nat, from: Key, to: Key): Score {
    match Stored(table, from, to)
    case None => Score(1.0, now)
    case Some(s) => Score(s.value * Power(if s.lastEvent <= now then now - s.lastEvent else 0) + 1.0, now)
  }

  function Touch(table: Table, now: nat, from: Key, to: Key): Table {
    var row := if from in table then table[from] else map[];
    table[from := row[to := TouchedScore(table, now, from, to)]]
  }

  lemma TouchAddsOne(table: Table, now: nat, from: Key, to: Key, f: Key, t: Key, w: real)
    requires Stands(table, now, f, t, w)
    ensures Stands(Touch(table, now, from, to), now, f, t, if f == from && t == to then w + 1.0 else w)
  {
    assert Power(0) == 1.0;
    if f == from && t == to {
      assert Stored(Touch(table, now, from, to), f, t) == Some(TouchedScore(table, now, from, to));
    } else {
      assert Stored(Touch(table, now, from, to), f, t) == Stored(table, f, t);
    }
  }

  /** Sightings among the first `i` experts of the route and, for the next one,
      the first `j` that followed. */
  function Seen(o: Observation, i: nat, j: nat, from: Key, to: Key): nat
    requires i <= |o.fromRoute| && j <= |o.toRoute|
  {
    if from.layer == o.fromLayer && to.layer == o.toLayer then
      multiset(o.fromRoute[..i])[from.expert] * multiset(o.toRoute)[to.expert]
      + if i < |o.fromRoute| && o.fromRoute[i] == from.expert then multiset(o.toRoute[..j])[to.expert] else 0
    else 0
  }

  lemma SeenAnother(o: Observation, i: nat, j: nat, from: Key, to: Key)
    requires i < |o.fromRoute| && j < |o.toRoute|
    ensures Seen(o, i, j + 1, from, to) == Seen(o, i, j, from, to)
      + if from == Key(o.fromLayer, o.fromRoute[i]) && to == Key(o.toLayer, o.toRoute[j]) then 1 else 0
  {
    assert o.toRoute[..j + 1] == o.toRoute[..j] + [o.toRoute[j]];
  }

  lemma SeenRow(o: Observation, i: nat, from: Key, to: Key)
    requires i < |o.fromRoute|
    ensures Seen(o, i, |o.toRoute|, from, to) == Seen(o, i + 1, 0, from, to)
  {
    assert o.fromRoute[..i + 1] == o.fromRoute[..i] + [o.fromRoute[i]];
    assert o.toRoute[..|o.toRoute|] == o.toRoute;
    var n := multiset(o.toRoute)[to.expert];
    var c := multiset(o.fromRoute[..i])[from.expert];
    assert (c + 1) * n == c * n + n;
  }

  lemma SeenAll(o: Observation, from: Key, to: Key)
    ensures Seen(o, 0, 0, from, to) == 0
    ensures Seen(o, |o.fromRoute|, 0, from, to) == Pairs(o, from, to)
  {
    assert o.fromRoute[..|o.fromRoute|] == o.fromRoute;
  }

  /** A pair has a score exactly if it was sighted, and the score stands for its weight. */
  ghost predicate Follows(table: Table, history: seq<Observation>, now: nat, from: Key, to: Key) {
    && Stands(table, now, from, to, Weight(history, from, to))
    && (Stored(table, from, to).Some? <==> Sighted(history, from, to))
  }

  /** Part of the way through an observation. */
  ghost predicate Midway(table: Table, history: seq<Observation>, now: nat, o: Observation, i: nat, j: nat, from: Key,
                         to: Key)
    requires i <= |o.fromRoute| && j <= |o.toRoute|
  {
    && Stands(table, now, from, to, DECAY * Weight(history, from, to) + Seen(o, i, j, from, to) as real)
    && (Stored(table, from, to).Some? <==> Sighted(history, from, to) || Seen(o, i, j, from, to) > 0)
  }

  class TransitionPredictor {
    var scores: Table
    var events: nat
    ghost var history: seq<Observation>

    /** The stored scores are those of the pairs sighted, and decayed to now each is
        the weight of what was observed. */
    ghost predicate Valid()
      reads this
    {
      events == |history| && forall from: Key, to: Key :: Follows(scores, history, events, from, to)
    }

    constructor ()
      ensures Valid() && history == []
    {
      scores := map[];
      events := 0;
      history := [];
    }

    method Observe(fromLayer: nat, fromRoute: seq<nat>, toLayer: nat, toRoute: seq<nat>)
      requires Valid()
      modifies this
      ensures Valid() && history == old(history) + [Observation(fromLayer, fromRoute, toLayer, toRoute)]
    {
      hide Follows, Midway, Weight, Touch, Stored, Stands;
      ghost var o := Observation(fromLayer, fromRoute, toLayer, toRoute);
      events := events + 1;
      forall from: Key, to: Key ensures Midway(scores, history, events, o, 0, 0, from, to) {
        StartsMidway(scores, history, events - 1, o, from, to);
      }
      for i := 0 to |fromRoute|
        invariant events == |history| + 1 && history == old(history)
        invariant forall from: Key, to: Key :: Midway(scores, history, events, o, i, 0, from, to)
      {
        for j := 0 to |toRoute|
          invariant events == |history| + 1 && history == old(history)
          invariant forall from: Key, to: Key :: Midway(scores, history, events, o, i, j, from, to)
        {
          ghost var before := scores;
          scores := Touch(scores, events, Key(fromLayer, fromRoute[i]), Key(toLayer, toRoute[j]));
          ghost var after := scores;
          ghost var j' := j + 1;
          forall from: Key, to: Key ensures Midway(after, history, events, o, i, j', from, to) {
            assert Midway(before, history, events, o, i, j, from, to);
            TouchesMidway(before, history, events, o, i, j, from, to);
          }
        }
        ghost var i' := i + 1;
        forall from: Key, to: Key ensures Midway(scores, history, events, o, i', 0, from, to) {
          assert Midway(scores, history, events, o, i, |toRoute|, from, to);
          RowDone(scores, history, events, o, i, from, to);
        }
      }
      ghost var was := history;
      history := history + [o];
      forall from: Key, to: Key ensures Follows(scores, history, events, from, to) {
        assert Midway(scores, was, events, o, |fromRoute|, 0, from, to);
        EndsMidway(scores, was, events, o, from, to);
      }
    }
  }

  lemma StartsMidway(table: Table, history: seq<Observation>, now: nat, o: Observation, from: Key, to: Key)
    requires Follows(table, history, now, from, to)
    ensures Midway(table, history, now + 1, o, 0, 0, from, to)
  {
    hide Stands, Stored, Seen, Weight, Sighted;
    EventPasses(table, now, from, to, Weight(history, from, to));
    SeenAll(o, from, to);
  }

  lemma TouchesMidway(table: Table, history: seq<Observation>, now: nat, o: Observation, i: nat, j: nat, from: Key,
                      to: Key)
    requires i < |o.fromRoute| && j < |o.toRoute| && Midway(table, history, now, o, i, j, from, to)
    ensures Midway(Touch(table, now, Key(o.fromLayer, o.fromRoute[i]), Key(o.toLayer, o.toRoute[j])), history, now, o,
      i, j + 1, from, to)
  {
    hide Stands, Stored, Seen, Weight, Touch, Sighted;
    SeenAnother(o, i, j, from, to);
    TouchAddsOne(table, now, Key(o.fromLayer, o.fromRoute[i]), Key(o.toLayer, o.toRoute[j]), from, to,
                 DECAY * Weight(history, from, to) + Seen(o, i, j, from, to) as real);
    TouchStores(table, now, Key(o.fromLayer, o.fromRoute[i]), Key(o.toLayer, o.toRoute[j]), from, to);
  }

  lemma TouchStores(table: Table, now: nat, from: Key, to: Key, f: Key, t: Key)
    ensures Stored(Touch(table, now, from, to), f, t).Some? <==> Stored(table, f, t).Some? || (f == from && t == to)
  {
  }

  lemma RowDone(table: Table, history: seq<Observation>, now: nat, o: Observation, i: nat, from: Key, to: Key)
    requires i < |o.fromRoute| && Midway(table, history, now, o, i, |o.toRoute|, from, to)
    ensures Midway(table, history, now, o, i + 1, 0, from, to)
  {
    hide Stands, Stored, Seen, Weight, Sighted;
    SeenRow(o, i, from, to);
  }

  lemma EndsMidway(table: Table, history: seq<Observation>, now: nat, o: Observation, from: Key, to: Key)
    requires Midway(table, history, now, o, |o.fromRoute|, 0, from, to)
    ensures Follows(table, history + [o], now, from, to)
  {
    hide Stands, Stored, Seen, Sighted;
    SeenAll(o, from, to);
    SightedSnoc(history, o, from, to);
    assert (history + [o])[..|history|] == history;
  }

  // ------------------------------------------------------------------------
  // Predictions

  /** The candidates' total over the experts just routed, repeats counted. */
  function Total(history: seq<Observation>, fromLayer: nat, fromRoute: seq<nat>, toLayer: nat, expert: nat): real {
    if fromRoute == [] then 0.0
    else
      Total(history, fromLayer, fromRoute[..|fromRoute| - 1], toLayer, expert)
      + Weight(history, Key(fromLayer, fromRoute[|fromRoute| - 1]), Key(toLayer, expert))
  }

  /** Whether an expert has followed any of the experts just routed. */
  ghost predicate HasFollowed(history: seq<Observation>, fromLayer: nat, fromRoute: seq<nat>, toLayer: nat,
                              expert: nat)
  {
    exists from :: from in fromRoute && Sighted(history, Key(fromLayer, from), Key(toLayer, expert))
  }

  function TotalOf(ranked: map<nat, real>, expert: nat): real {
    if expert in ranked then ranked[expert] else 0.0
  }

  ghost predicate Gathered(history: seq<Observation>, fromLayer: nat, fromRoute: seq<nat>, toLayer: nat,
                           resident: set<nat>, ranked: map<nat, real>, expert: nat)
  {
    && (expert in ranked <==> expert !in resident && HasFollowed(history, fromLayer, fromRoute, toLayer, expert))
    && (expert !in resident ==> TotalOf(ranked, expert) == Total(history, fromLayer, fromRoute, toLayer, expert))
  }

  /** What one row adds to one candidate. */
  ghost predicate RowAdded(row: map<Key, Score>, now: nat, toLayer: nat, resident: set<nat>, rest: set<Key>,
                           before: map<nat, real>, after: map<nat, real>, expert: nat)
  {
    var key := Key(toLayer, expert);
    if key in row && key !in rest && expert !in resident then
      expert in after && TotalOf(after, expert) == TotalOf(before, expert) + Decayed(row[key], now)
    else (expert in after <==> expert in before) && TotalOf(after, expert) == TotalOf(before, expert)
  }

  function Decayed(s: Score, now: nat): real {
    s.value * Power(if s.lastEvent <= now then now - s.lastEvent else 0)
  }

  /** Adds one routed expert's row, in whatever order the row yields its entries. */
  method AddRow(row: map<Key, Score>, now: nat, toLayer: nat, resident: set<nat>, ranked: map<nat, real>)
      returns (r: map<nat, real>)
    ensures forall expert: nat :: RowAdded(row, now, toLayer, resident, {}, ranked, r, expert)
  {
    hide Decayed;
    r := ranked;
    var rest := row.Keys;
    while rest != {}
      invariant rest <= row.Keys
      invariant forall expert: nat :: RowAdded(row, now, toLayer, resident, rest, ranked, r, expert)
      decreases |rest|
    {
      var key :| key in rest;
      ghost var left := rest;
      ghost var before := r;
      rest := rest - {key};
      if key.layer == toLayer && key.expert !in resident {
        r := r[key.expert := TotalOf(r, key.expert) + Decayed(row[key], now)];
      }
      forall expert: nat ensures RowAdded(row, now, toLayer, resident, rest, ranked, r, expert) {
        assert RowAdded(row, now, toLayer, resident, left, ranked, before, expert);
      }
    }
  }

  lemma RowGathered(table: Table, history: seq<Observation>, now: nat, fromLayer: nat, fromRoute: seq<nat>, i: nat,
                    toLayer: nat, resident: set<nat>, before: map<nat, real>, after: map<nat, real>, expert: nat)
    requires i < |fromRoute|
    requires Gathered(history, fromLayer, fromRoute[..i], toLayer, resident, before, expert)
    requires Follows(table, history, now, Key(fromLayer, fromRoute[i]), Key(toLayer, expert))
    requires var from := Key(fromLayer, fromRoute[i]);
      if from in table then RowAdded(table[from], now, toLayer, resident, {}, before, after, expert)
        else after == before
    ensures Gathered(history, fromLayer, fromRoute[..i + 1], toLayer, resident, after, expert)
  {
    hide Weight, Sighted;
    var next := fromRoute[..i + 1];
    assert next[..i] == fromRoute[..i] && fromRoute[i] in next;
    assert forall from :: from in next <==> from in fromRoute[..i] || from == fromRoute[i];
  }

  /** The order of predictions: higher total first, then lower expert id. */
  predicate Ahead(ranked: map<nat, real>, a: nat, b: nat)
    requires a in ranked && b in ranked
  {
    ranked[a] > ranked[b] || (ranked[a] == ranked[b] && a < b)
  }

  ghost predicate InOrder(ranked: map<nat, real>, order: seq<nat>) {
    && (forall i :: 0 <= i < |order| ==> order[i] in ranked)
    && forall i, j :: 0 <= i < j < |order| ==> Ahead(ranked, order[i], order[j])
  }

  ghost predicate IsOrderOf(ranked: map<nat, real>, order: seq<nat>) {
    InOrder(ranked, order) && forall e :: e in ranked ==> e in order
  }

  method First(ranked: map<nat, real>, rest: set<nat>) returns (first: nat)
    requires rest != {} && rest <= ranked.Keys
    ensures first in rest && forall e :: e in rest && e != first ==> Ahead(ranked, first, e)
  {
    first :| first in rest;
    var left := rest - {first};
    while left != {}
      invariant left <= rest && first in rest && first !in left
      invariant forall e :: e in rest && e !in left && e != first ==> Ahead(ranked, first, e)
      decreases |left|
    {
      var e :| e in left;
      left := left - {e};
      if Ahead(ranked, e, first) {
        first := e;
      }
    }
  }

  method Sort(ranked: map<nat, real>) returns (order: seq<nat>)
    ensures IsOrderOf(ranked, order)
  {
    order := [];
    var rest := ranked.Keys;
    while rest != {}
      invariant rest <= ranked.Keys && InOrder(ranked, order)
      invariant forall i :: 0 <= i < |order| ==> order[i] in ranked && order[i] !in rest
      invariant forall e :: e in ranked && e !in rest ==> e in order
      invariant forall i, e :: 0 <= i < |order| && e in rest ==> order[i] in ranked && Ahead(ranked, order[i], e)
      decreases |rest|
    {
      var first := First(ranked, rest);
      order := order + [first];
      rest := rest - {first};
    }
  }

  /** The order is a total one: candidates can be listed in only one way. */
  lemma {:induction false} OrderIsUnique(ranked: map<nat, real>, a: seq<nat>, b: seq<nat>)
    requires IsOrderOf(ranked, a) && IsOrderOf(ranked, b)
    ensures a == b
    decreases |a|
  {
    if a == [] {
      assert forall e :: e !in ranked;
      OrderOfNothing(ranked, b);
    } else {
      assert a[0] in b;
      assert b[0] in a;
      var rest := ranked - {a[0]};
      TailOrders(ranked, a);
      TailOrders(ranked, b);
      OrderIsUnique(rest, a[1..], b[1..]);
    }
  }

  lemma OrderOfNothing(ranked: map<nat, real>, b: seq<nat>)
    requires IsOrderOf(ranked, b) && forall e :: e !in ranked
    ensures b == []
  {
    hide IsOrderOf;
    if b != [] {
      FirstIsRanked(ranked, b);
    }
  }

  lemma FirstIsRanked(ranked: map<nat, real>, b: seq<nat>)
    requires IsOrderOf(ranked, b) && b != []
    ensures exists e :: e in ranked
  {
    assert b[0] in ranked;
  }

  lemma TailOrders(ranked: map<nat, real>, a: seq<nat>)
    requires IsOrderOf(ranked, a) && a != []
    ensures IsOrderOf(ranked - {a[0]}, a[1..])
  {
    var rest := ranked - {a[0]};
    forall i | 0 <= i < |a[1..]| ensures a[1..][i] in rest {
      assert Ahead(ranked, a[0], a[i + 1]);
    }
    forall e | e in rest ensures e in a[1..] {
      var i :| 0 <= i < |a| && a[i] == e;
      assert a[1..][i - 1] == e;
    }
  }

  /** `prediction` is the front of `order`, which lists every candidate that has
      followed the route and is not resident, by total weight. */
  ghost predicate BestOf(history: seq<Observation>, fromLayer: nat, fromRoute: seq<nat>, toLayer: nat, budget: nat,
                         resident: set<nat>, prediction: seq<nat>, order: seq<nat>, ranked: map<nat, real>)
  {
    && IsOrderOf(ranked, order)
    && prediction == (if budget < |order| then order[..budget] else order)
    && forall expert: nat :: Gathered(history, fromLayer, fromRoute, toLayer, resident, ranked, expert)
  }

  ghost predicate IsPrediction(history: seq<Observation>, fromLayer: nat, fromRoute: seq<nat>, toLayer: nat,
                               budget: nat, resident: set<nat>, prediction: seq<nat>)
  {
    exists order, ranked ::
      BestOf(history, fromLayer, fromRoute, toLayer, budget, resident, prediction, order, ranked)
  }

  /** Only one prediction qualifies for what was observed: neither the iteration
      order of the tables nor anything else they hold can show. */
  lemma PredictionIsUnique(history: seq<Observation>, fromLayer: nat, fromRoute: seq<nat>, toLayer: nat,
                           budget: nat, resident: set<nat>, a: seq<nat>, b: seq<nat>)
    requires IsPrediction(history, fromLayer, fromRoute, toLayer, budget, resident, a)
    requires IsPrediction(history, fromLayer, fromRoute, toLayer, budget, resident, b)
    ensures a == b
  {
    hide IsOrderOf, HasFollowed, Total;
    var order, ranked :| BestOf(history, fromLayer, fromRoute, toLayer, budget, resident, a, order, ranked);
    var order', ranked' :| BestOf(history, fromLayer, fromRoute, toLayer, budget, resident, b, order', ranked');
    forall expert: nat ensures expert in ranked <==> expert in ranked' {
      assert Gathered(history, fromLayer, fromRoute, toLayer, resident, ranked, expert);
      assert Gathered(history, fromLayer, fromRoute, toLayer, resident, ranked', expert);
    }
    forall expert: nat | expert in ranked ensures ranked[expert] == ranked'[expert] {
      assert Gathered(history, fromLayer, fromRoute, toLayer, resident, ranked, expert);
      assert Gathered(history, fromLayer, fromRoute, toLayer, resident, ranked', expert);
    }
    assert ranked == ranked';
    OrderIsUnique(ranked, order, order');
  }

  /** The best `budget` candidates for the next layer, none of them resident. */
  method Predict(predictor: TransitionPredictor, fromLayer: nat, fromRoute: seq<nat>, toLayer: nat, budget: nat,
                 resident: set<nat>)
      returns (prediction: seq<nat>)
    requires predictor.Valid()
    ensures IsPrediction(predictor.history, fromLayer, fromRoute, toLayer, budget, resident, prediction)
  {
    hide Follows, Gathered, IsOrderOf, RowAdded;
    var totals: map<nat, real> := map[];
    var table, now := predictor.scores, predictor.events;
    NothingGathered(predictor.history, fromLayer, fromRoute, toLayer, resident);
    for i := 0 to |fromRoute|
      invariant forall expert: nat ::
        Gathered(predictor.history, fromLayer, fromRoute[..i], toLayer, resident, totals, expert)
    {
      ghost var before := totals;
      var from := Key(fromLayer, fromRoute[i]);
      if from in table {
        totals := AddRow(table[from], now, toLayer, resident, totals);
      }
      ghost var sofar := fromRoute[..i + 1];
      ghost var after := totals;
      forall expert: nat ensures Gathered(predictor.history, fromLayer, sofar, toLayer, resident, after, expert) {
        assert Follows(table, predictor.history, now, from, Key(toLayer, expert));
        assert Gathered(predictor.history, fromLayer, fromRoute[..i], toLayer, resident, before, expert);
        RowGathered(table, predictor.history, now, fromLayer, fromRoute, i, toLayer, resident, before, after, expert);
      }
    }
    assert fromRoute[..|fromRoute|] == fromRoute;
    var sorted := Sort(totals);
    prediction := if budget < |sorted| then sorted[..budget] else sorted;
    assert BestOf(predictor.history, fromLayer, fromRoute, toLayer, budget, resident, prediction, sorted, totals);
  }

  lemma NothingGathered(history: seq<Observation>, fromLayer: nat, fromRoute: seq<nat>, toLayer: nat,
                        resident: set<nat>)
    ensures forall expert: nat :: Gathered(history, fromLayer, fromRoute[..0], toLayer, resident, map[], expert)
  {
  }

  // ------------------------------------------------------------------------
  // What a prediction says

  /** `e` is to be named before `f`. */
  ghost predicate Better(history: seq<Observation>, fromLayer: nat, fromRoute: seq<nat>, toLayer: nat, e: nat, f: nat) {
    var x, y := Total(history, fromLayer, fromRoute, toLayer, e), Total(history, fromLayer, fromRoute, toLayer, f);
    x > y || (x == y && e < f)
  }

  ghost predicate Candidate(history: seq<Observation>, fromLayer: nat, fromRoute: seq<nat>, toLayer: nat,
                            resident: set<nat>, e: nat)
  {
    e !in resident && HasFollowed(history, fromLayer, fromRoute, toLayer, e)
  }

  /** Main result: a prediction names candidates only, each once and the better
      first, at most as many as the budget; and leaves one out only where the budget
      is used up by better ones. */
  lemma PredictionNamesTheBest(history: seq<Observation>, fromLayer: nat, fromRoute: seq<nat>, toLayer: nat,
                               budget: nat, resident: set<nat>, prediction: seq<nat>)
    requires IsPrediction(history, fromLayer, fromRoute, toLayer, budget, resident, prediction)
    ensures Distinct(prediction) && |prediction| <= budget
    ensures forall e :: e in prediction ==> Candidate(history, fromLayer, fromRoute, toLayer, resident, e)
    ensures forall i, j :: 0 <= i < j < |prediction| ==>
              Better(history, fromLayer, fromRoute, toLayer, prediction[i], prediction[j])
    ensures forall f: nat :: Candidate(history, fromLayer, fromRoute, toLayer, resident, f) && f !in prediction ==>
              |prediction| == budget
              && forall e :: e in prediction ==> Better(history, fromLayer, fromRoute, toLayer, e, f)
  {
    hide HasFollowed, Total;
    var order, ranked :| BestOf(history, fromLayer, fromRoute, toLayer, budget, resident, prediction, order, ranked);
    assert prediction <= order && forall k :: 0 <= k < |prediction| ==> prediction[k] == order[k];
    forall e: nat
      ensures e in order <==> Candidate(history, fromLayer, fromRoute, toLayer, resident, e)
      ensures e in order ==> e in ranked && ranked[e] == Total(history, fromLayer, fromRoute, toLayer, e)
    {
      assert Gathered(history, fromLayer, fromRoute, toLayer, resident, ranked, e);
    }
    forall i, j | 0 <= i < j < |order| ensures Better(history, fromLayer, fromRoute, toLayer, order[i], order[j]) {
      assert order[i] in order && order[j] in order;
    }
    forall f: nat | Candidate(history, fromLayer, fromRoute, toLayer, resident, f) && f !in prediction
      ensures |prediction| == budget
      ensures forall e :: e in prediction ==> Better(history, fromLayer, fromRoute, toLayer, e, f)
    {
      var j :| 0 <= j < |order| && order[j] == f;
    }
  }

  // ------------------------------------------------------------------------
  // What the decay means

  lemma {:induction false} PowerSum(a: nat, b: nat)
    ensures Power(a + b) == Times(Power(a), Power(b))
  {
    if a > 0 {
      PowerSum(a - 1, b);
      Regroup(DECAY, Power(a - 1), Power(b));
    }
  }

  lemma Regroup(x: real, y: real, z: real)
    ensures Times(x * y, z) == x * Times(y, z)
  {
  }

  lemma {:induction false} PowerFalls(a: nat, b: nat)
    requires a <= b
    ensures 0.0 < Power(b) <= Power(a)
  {
    if b > 0 {
      PowerFalls(if a < b then a else b - 1, b - 1);
    }
  }

  /** A score halves in 23 events, and not before. */
  lemma HalfLife()
    ensures Power(1) == 0.97 && Power(23) < 0.5 < Power(22)
    ensures 3.0 * Power(37) < 1.0 < 3.0 * Power(36)
  {
    assert Power(0) == 1.0 && Power(1) == 0.97;
    PowerSum(1, 1);
    PowerSum(2, 2);
    PowerSum(4, 4);
    PowerSum(8, 8);
    PowerSum(16, 16);
    PowerSum(16, 4);
    PowerSum(20, 2);
    PowerSum(22, 1);
    PowerSum(32, 4);
    PowerSum(36, 1);
  }

  /** How often `to` has been seen after `from` in all. */
  function Count(history: seq<Observation>, from: Key, to: Key): nat {
    if history == [] then 0 else Count(history[..|history| - 1], from, to) + Pairs(history[|history| - 1], from, to)
  }

  lemma {:induction false} WeightInRange(history: seq<Observation>, from: Key, to: Key)
    ensures 0.0 <= Weight(history, from, to) <= Count(history, from, to) as real
  {
    hide Pairs;
    if history != [] {
      WeightInRange(history[..|history| - 1], from, to);
    }
  }

  /** Events that do not show a pair only make its score decay. */
  lemma {:induction false} QuietDecays(history: seq<Observation>, quiet: seq<Observation>, from: Key, to: Key)
    requires forall k :: 0 <= k < |quiet| ==> Pairs(quiet[k], from, to) == 0
    ensures Weight(history + quiet, from, to) == Times(Weight(history, from, to), Power(|quiet|))
  {
    hide Pairs;
    if quiet == [] {
      assert history + quiet == history;
    } else {
      var n := |quiet| - 1;
      QuietDecays(history, quiet[..n], from, to);
      assert (history + quiet)[..|history + quiet| - 1] == history + quiet[..n];
      Rotate(DECAY, Weight(history, from, to), Power(n));
    }
  }

  lemma Rotate(x: real, y: real, z: real)
    ensures x * Times(y, z) == Times(y, x * z)
  {
  }

  /** What the decay was chosen for: three sightings, none of them among the last 37
      events, do not outrank one in the last event. */
  lemma FreshOutranksStale(history: seq<Observation>, recent: seq<Observation>, from: Key, stale: Key, from': Key,
                           latest: Key)
    requires |recent| >= 37 && Count(history, from, stale) <= 3
    requires forall k :: 0 <= k < |recent| ==> Pairs(recent[k], from, stale) == 0
    requires Pairs(recent[|recent| - 1], from', latest) > 0
    ensures Weight(history + recent, from, stale) < Weight(history + recent, from', latest)
  {
    hide Pairs, Power;
    var all := history + recent;
    QuietDecays(history, recent, from, stale);
    WeightInRange(history, from, stale);
    WeightInRange(all[..|all| - 1], from', latest);
    assert all[|all| - 1] == recent[|recent| - 1];
    PowerFalls(37, |recent|);
    HalfLife();
    Within(Weight(history, from, stale), 3.0, Power(|recent|), Power(37));
  }

  lemma Within(x: real, a: real, y: real, b: real)
    requires 0.0 <= x <= a && 0.0 <= y <= b
    ensures Times(x, y) <= a * b
  {
    assert x * y <= a * y;
    assert a * y <= a * b;
  }
}
