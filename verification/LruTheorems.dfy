/** What the LRU tile replay promises: which routes fit, what stays resident,
    that more capacity never loses a hit, and that no byte is miscounted. */
module LruTheorems {
  import opened Wrappers
  import opened LruModel

  // ------------------------------------------------------------------------
  // Residency without hit counts

  /** What is resident, most recent first: keys and sizes. */
  function Resident(tiles: seq<Tile>): seq<Demand> {
    seq(|tiles|, i requires 0 <= i < |tiles| => Demand(tiles[i].key, tiles[i].bytes))
  }

  function Total(ds: seq<Demand>): nat {
    if ds == [] then 0 else ds[0].bytes + Total(ds[1..])
  }

  /** The demands whose key is not among `keys`, in order. */
  function Without(ds: seq<Demand>, keys: seq<TileKey>): seq<Demand> {
    if ds == [] then []
    else (if ds[0].key in keys then [] else [ds[0]]) + Without(ds[1..], keys)
  }

  /** The longest beginning of `ds` that fits the budget. */
  function FitPrefix(ds: seq<Demand>, budget: int): seq<Demand> {
    if ds == [] || ds[0].bytes > budget then []
    else [ds[0]] + FitPrefix(ds[1..], budget - ds[0].bytes)
  }

  function Reverse(ds: seq<Demand>): seq<Demand> {
    if ds == [] then [] else [ds[|ds| - 1]] + Reverse(ds[..|ds| - 1])
  }

  ghost predicate DistinctKeys(ds: seq<Demand>) {
    forall i, j :: 0 <= i < j < |ds| ==> ds[i].key != ds[j].key
  }

  /** Every key always has the same size. */
  ghost predicate Sized(ds: seq<Demand>, sizeOf: TileKey -> nat) {
    forall i :: 0 <= i < |ds| ==> ds[i].bytes == sizeOf(ds[i].key)
  }

  /** What a route leaves resident: itself, its last demand first, and then the
      most recent other tiles that still fit. */
  function AfterRoute(resident: seq<Demand>, demands: seq<Demand>, capacity: int): seq<Demand> {
    Reverse(demands) + FitPrefix(Without(resident, Keys(demands)), capacity - Total(demands))
  }

  // ------------------------------------------------------------------------
  // Inclusion

  lemma {:induction false} FitPrefixMonotone(a: seq<Demand>, b: seq<Demand>, x: int, y: int)
    requires a <= b && x <= y
    ensures FitPrefix(a, x) <= FitPrefix(b, y)
  {
    if a != [] && a[0].bytes <= x {
      assert a[1..] <= b[1..];
      FitPrefixMonotone(a[1..], b[1..], x - a[0].bytes, y - a[0].bytes);
    }
  }

  lemma {:induction false} WithoutMonotone(a: seq<Demand>, b: seq<Demand>, keys: seq<TileKey>)
    requires a <= b
    ensures Without(a, keys) <= Without(b, keys)
  {
    if a != [] {
      assert a[0] == b[0] && a[1..] <= b[1..];
      WithoutMonotone(a[1..], b[1..], keys);
    }
  }

  /** A larger cache that held everything the smaller one held, in the same
      order, still does after any route. */
  lemma RouteKeepsInclusion(small: seq<Demand>, large: seq<Demand>, demands: seq<Demand>, c: nat, d: nat)
    requires small <= large && c <= d
    ensures AfterRoute(small, demands, c) <= AfterRoute(large, demands, d)
  {
    var keys := Keys(demands);
    WithoutMonotone(small, large, keys);
    FitPrefixMonotone(Without(small, keys), Without(large, keys), c - Total(demands), d - Total(demands));
    PrefixAfterSame(Reverse(demands), FitPrefix(Without(small, keys), c - Total(demands)),
                    FitPrefix(Without(large, keys), d - Total(demands)));
  }

  lemma PrefixAfterSame(front: seq<Demand>, a: seq<Demand>, b: seq<Demand>)
    requires a <= b
    ensures front + a <= front + b
  {
  }

  // ------------------------------------------------------------------------
  // Filtering

  lemma {:induction false} TotalAppend(a: seq<Demand>, b: seq<Demand>)
    ensures Total(a + b) == Total(a) + Total(b)
  {
    if a == [] {
      assert a + b == b;
    } else {
      assert (a + b)[1..] == a[1..] + b;
      TotalAppend(a[1..], b);
    }
  }

  lemma {:induction false} WithoutAppend(a: seq<Demand>, b: seq<Demand>, keys: seq<TileKey>)
    ensures Without(a + b, keys) == Without(a, keys) + Without(b, keys)
  {
    if a == [] {
      assert a + b == b;
    } else {
      assert (a + b)[1..] == a[1..] + b;
      WithoutAppend(a[1..], b, keys);
    }
  }

  /** Filtering again with one key more. */
  lemma {:induction false} WithoutTwice(ds: seq<Demand>, keys: seq<TileKey>, key: TileKey)
    ensures Without(Without(ds, keys), [key]) == Without(ds, keys + [key])
  {
    if ds != [] {
      WithoutTwice(ds[1..], keys, key);
      WithoutAppend(if ds[0].key in keys then [] else [ds[0]], Without(ds[1..], keys), [key]);
      assert ds[0].key in keys + [key] <==> ds[0].key in keys || ds[0].key == key;
    }
  }

  lemma {:induction false} WithoutAbsent(ds: seq<Demand>, key: TileKey)
    requires forall i :: 0 <= i < |ds| ==> ds[i].key != key
    ensures Without(ds, [key]) == ds
  {
    if ds != [] {
      WithoutAbsent(ds[1..], key);
    }
  }

  /** With distinct keys, filtering out one of them removes its place. */
  lemma {:induction false} WithoutOne(ds: seq<Demand>, p: nat)
    requires DistinctKeys(ds) && p < |ds|
    ensures Without(ds, [ds[p].key]) == RemoveAt(ds, p)
  {
    if p == 0 {
      WithoutAbsent(ds[1..], ds[0].key);
    } else {
      WithoutOne(ds[1..], p - 1);
      assert RemoveAt(ds, p) == [ds[0]] + RemoveAt(ds[1..], p - 1);
    }
  }

  /** The bytes under the pinned keys. */
  function PinnedBytes(ds: seq<Demand>, keys: seq<TileKey>): nat {
    if ds == [] then 0 else (if ds[0].key in keys then ds[0].bytes else 0) + PinnedBytes(ds[1..], keys)
  }

  lemma {:induction false} PinnedSplit(ds: seq<Demand>, keys: seq<TileKey>)
    ensures Total(ds) == PinnedBytes(ds, keys) + Total(Without(ds, keys))
  {
    if ds != [] {
      PinnedSplit(ds[1..], keys);
      var head := if ds[0].key in keys then [] else [ds[0]];
      TotalAppend(head, Without(ds[1..], keys));
      assert [ds[0]][1..] == [];
    }
  }

  lemma {:induction false} FitsWhole(ds: seq<Demand>, budget: int)
    requires Total(ds) <= budget
    ensures FitPrefix(ds, budget) == ds
  {
    if ds != [] {
      FitsWhole(ds[1..], budget - ds[0].bytes);
      assert [ds[0]] + ds[1..] == ds;
    }
  }

  /** When not everything fits, the last one does not matter. */
  lemma {:induction false} FitDropsLast(ds: seq<Demand>, budget: int)
    requires ds != [] && budget < Total(ds)
    ensures FitPrefix(ds, budget) == FitPrefix(ds[..|ds| - 1], budget)
  {
    if |ds| == 1 {
    } else if ds[0].bytes <= budget {
      assert ds[1..][..|ds[1..]| - 1] == ds[..|ds| - 1][1..];
      FitDropsLast(ds[1..], budget - ds[0].bytes);
    }
  }

  lemma {:induction false} ResidentTotal(tiles: seq<Tile>)
    ensures Total(Resident(tiles)) == Bytes(tiles)
  {
    if tiles != [] {
      assert Resident(tiles)[1..] == Resident(tiles[1..]);
      ResidentTotal(tiles[1..]);
    }
  }

  // ------------------------------------------------------------------------
  // Making room

  lemma {:induction false} LastUnpinnedIs(tiles: seq<Tile>, pinned: seq<TileKey>)
    ensures var r := LastUnpinned(tiles, pinned);
      match r
      case None => Without(Resident(tiles), pinned) == []
      case Some(p) =>
        && tiles[p].key !in pinned
        && Without(Resident(tiles)[p + 1..], pinned) == []
  {
    if tiles != [] {
      var n := |tiles| - 1;
      var res := Resident(tiles);
      assert Resident(tiles[..n]) == res[..n];
      LastUnpinnedIs(tiles[..n], pinned);
      assert res == res[..n] + [res[n]];
      WithoutAppend(res[..n], [res[n]], pinned);
      match LastUnpinned(tiles, pinned) {
        case None =>
        case Some(p) =>
          if p < n {
            assert res[p + 1..] == res[..n][p + 1..] + [res[n]];
            WithoutAppend(res[..n][p + 1..], [res[n]], pinned);
          } else {
            assert res[p + 1..] == [];
          }
      }
    }
  }

  /** Evicting takes the last unpinned tile away and leaves every pinned one. */
  lemma EvictIs(st: CacheState, pinned: seq<TileKey>)
    requires LastUnpinned(st.tiles, pinned).Some?
    ensures var rest := Evict(st, LastUnpinned(st.tiles, pinned).value).tiles;
      var before := Without(Resident(st.tiles), pinned);
      && before != []
      && Without(Resident(rest), pinned) == before[..|before| - 1]
      && PinnedBytes(Resident(rest), pinned) == PinnedBytes(Resident(st.tiles), pinned)
  {
    var p := LastUnpinned(st.tiles, pinned).value;
    var rest := Evict(st, p).tiles;
    var res := Resident(st.tiles);
    LastUnpinnedIs(st.tiles, pinned);
    assert Resident(rest) == res[..p] + res[p + 1..];
    assert res == res[..p] + ([res[p]] + res[p + 1..]);
    WithoutAppend(res[..p], res[p + 1..], pinned);
    WithoutAppend(res[..p], [res[p]] + res[p + 1..], pinned);
    WithoutAppend([res[p]], res[p + 1..], pinned);
    PinnedAppend(res[..p], res[p + 1..], pinned);
    PinnedAppend(res[..p], [res[p]] + res[p + 1..], pinned);
    PinnedAppend([res[p]], res[p + 1..], pinned);
  }

  lemma {:induction false} PinnedAppend(a: seq<Demand>, b: seq<Demand>, keys: seq<TileKey>)
    ensures PinnedBytes(a + b, keys) == PinnedBytes(a, keys) + PinnedBytes(b, keys)
  {
    if a == [] {
      assert a + b == b;
    } else {
      assert (a + b)[1..] == a[1..] + b;
      PinnedAppend(a[1..], b, keys);
    }
  }

  lemma EvictShrinks(st: CacheState, p: nat)
    requires p < |st.tiles|
    ensures |Evict(st, p).tiles| == |st.tiles| - 1
  {
  }

  /** Room can be made exactly when the pinned tiles and the missing bytes fit;
      then the most recent unpinned tiles that fit are kept. */
  lemma {:induction false} MakeRoomIs(capacity: nat, st: CacheState, pinned: seq<TileKey>, missing: nat)
    ensures var r, held := MakeRoom(capacity, st, pinned, missing), PinnedBytes(Resident(st.tiles), pinned);
      && (r.Routed? <==> held + missing <= capacity)
      && (r.Routed? ==>
            && Without(Resident(r.state.tiles), pinned)
               == FitPrefix(Without(Resident(st.tiles), pinned), capacity - held - missing)
            && PinnedBytes(Resident(r.state.tiles), pinned) == held
            && Bytes(r.state.tiles) + missing <= capacity)
    decreases |st.tiles|
  {
    hide Without, FitPrefix, PinnedBytes, Resident, Bytes, LastUnpinned, Evict;
    var held, others := PinnedBytes(Resident(st.tiles), pinned), Without(Resident(st.tiles), pinned);
    ResidentTotal(st.tiles);
    PinnedSplit(Resident(st.tiles), pinned);
    if Bytes(st.tiles) + missing <= capacity {
      FitsWhole(others, capacity - held - missing);
    } else {
      LastUnpinnedIs(st.tiles, pinned);
      match LastUnpinned(st.tiles, pinned) {
        case None =>
        case Some(p) =>
          EvictIs(st, pinned);
          assert |Evict(st, p).tiles| < |st.tiles| by { EvictShrinks(st, p); }
          MakeRoomIs(capacity, Evict(st, p), pinned, missing);
          FitDropsLast(others, capacity - held - missing);
      }
    }
  }

  // ------------------------------------------------------------------------
  // Serving the route

  ghost predicate DistinctTiles(tiles: seq<Tile>) {
    DistinctKeys(Resident(tiles))
  }

  /** Every demand of the route has a key of its own. */
  lemma {:induction false} LastKeyIsNew(demands: seq<Demand>)
    requires DistinctKeys(demands) && demands != []
    ensures demands[|demands| - 1].key !in Keys(demands[..|demands| - 1])
    ensures Keys(demands) == Keys(demands[..|demands| - 1]) + [demands[|demands| - 1].key]
  {
  }

  lemma ReverseKeys(demands: seq<Demand>, i: nat)
    requires i < |Reverse(demands)|
    ensures Reverse(demands)[i].key in Keys(demands)
  {
    var n := |demands| - 1;
    if 0 < i {
      ReverseKeys(demands[..n], i - 1);
      var k :| 0 <= k < |Keys(demands[..n])| && Keys(demands[..n])[k] == Reverse(demands[..n])[i - 1].key;
      assert Keys(demands)[k] == Reverse(demands)[i].key;
    } else {
      assert Keys(demands)[n] == Reverse(demands)[0].key;
    }
  }

  /** Moving one tile to the front, or fetching it there. */
  lemma TouchIs(st: CacheState, d: Demand)
    requires DistinctTiles(st.tiles) && (Holds(st.tiles, d.key) ==> d in Resident(st.tiles))
    ensures Resident(Touch(st, d).tiles) == [d] + Without(Resident(st.tiles), [d.key])
  {
    var res := Resident(st.tiles);
    if Holds(st.tiles, d.key) {
      var p := PositionOf(st.tiles, d.key);
      var i :| 0 <= i < |res| && res[i] == d;
      assert res[p].key == res[i].key;
      WithoutOne(res, p);
      assert Resident(RemoveAt(st.tiles, p)) == RemoveAt(res, p);
      assert Resident(Touch(st, d).tiles) == [d] + RemoveAt(res, p);
    } else {
      forall i | 0 <= i < |res| ensures res[i].key != d.key {
        assert st.tiles[i].key == res[i].key;
      }
      WithoutAbsent(res, d.key);
      assert Resident(Touch(st, d).tiles) == [d] + res;
    }
  }

  lemma {:induction false} WithoutIs(ds: seq<Demand>, keys: seq<TileKey>)
    ensures forall d :: d in Without(ds, keys) <==> d in ds && d.key !in keys
  {
    if ds != [] {
      WithoutIs(ds[1..], keys);
      assert ds == [ds[0]] + ds[1..];
    }
  }

  lemma {:induction false} WithoutKeepsDistinct(ds: seq<Demand>, keys: seq<TileKey>)
    requires DistinctKeys(ds)
    ensures DistinctKeys(Without(ds, keys))
    ensures forall d :: d in Without(ds, keys) <==> d in ds && d.key !in keys
  {
    WithoutIs(ds, keys);
    hide DistinctKeys;
    if ds != [] {
      WithoutIs(ds[1..], keys);
      DistinctRest(ds);
      WithoutKeepsDistinct(ds[1..], keys);
      if ds[0].key in keys {
        assert [] + Without(ds[1..], keys) == Without(ds[1..], keys);
      } else {
        DistinctCons(ds[0], Without(ds[1..], keys));
      }
    }
  }

  lemma DistinctRest(ds: seq<Demand>)
    requires DistinctKeys(ds) && ds != []
    ensures DistinctKeys(ds[1..]) && forall d :: d in ds[1..] ==> d.key != ds[0].key
  {
  }

  lemma DistinctCons(d: Demand, ds: seq<Demand>)
    requires DistinctKeys(ds) && forall e :: e in ds ==> e.key != d.key
    ensures DistinctKeys([d] + ds)
  {
  }

  lemma {:induction false} SizedWithout(ds: seq<Demand>, keys: seq<TileKey>, sizeOf: TileKey -> nat)
    requires Sized(ds, sizeOf)
    ensures Sized(Without(ds, keys), sizeOf)
  {
    if ds != [] {
      SizedWithout(ds[1..], keys, sizeOf);
    }
  }

  lemma ResidentMeansHolds(tiles: seq<Tile>, d: Demand, sizeOf: TileKey -> nat)
    requires Sized(Resident(tiles), sizeOf) && d.bytes == sizeOf(d.key)
    ensures Holds(tiles, d.key) <==> d in Resident(tiles)
  {
    if Holds(tiles, d.key) {
      var i :| 0 <= i < |tiles| && tiles[i].key == d.key;
      assert Resident(tiles)[i] == d;
    }
    if d in Resident(tiles) {
      var i :| 0 <= i < |Resident(tiles)| && Resident(tiles)[i] == d;
      assert tiles[i].key == d.key;
    }
  }

  /** Serving a route of distinct keys puts it in front, last demand first, and
      leaves the others in order behind it. */
  lemma {:induction false} TouchAllIs(st: CacheState, demands: seq<Demand>, sizeOf: TileKey -> nat)
    requires DistinctTiles(st.tiles) && DistinctKeys(demands)
    requires Sized(Resident(st.tiles), sizeOf) && Sized(demands, sizeOf)
    ensures var after := Resident(TouchAll(st, demands).tiles);
      && after == Reverse(demands) + Without(Resident(st.tiles), Keys(demands))
      && DistinctKeys(after) && Sized(after, sizeOf)
    decreases |demands|
  {
    hide Touch, Without;
    var res := Resident(st.tiles);
    if demands == [] {
      assert Keys(demands) == [];
      WithoutNothing(res);
      assert [] + res == res;
    } else {
      var n := |demands| - 1;
      var d, earlier := demands[n], demands[..n];
      TouchAllIs(st, earlier, sizeOf);
      LastKeyIsNew(demands);
      var mid := TouchAll(st, earlier);
      ResidentMeansHolds(mid.tiles, d, sizeOf);
      TouchIs(mid, d);
      WithoutAppend(Reverse(earlier), Without(res, Keys(earlier)), [d.key]);
      forall i: nat | i < |Reverse(earlier)| ensures Reverse(earlier)[i].key != d.key {
        ReverseKeys(earlier, i);
      }
      WithoutAbsent(Reverse(earlier), d.key);
      WithoutTwice(res, Keys(earlier), d.key);
      var after := Resident(TouchAll(st, demands).tiles);
      assert after == [d] + (Reverse(earlier) + Without(res, Keys(demands)));
      assert after == Reverse(demands) + Without(res, Keys(demands));
      FrontIsDistinct(d, Resident(mid.tiles));
      SizedWithout(Resident(mid.tiles), [d.key], sizeOf);
    }
  }

  lemma FrontIsDistinct(d: Demand, ds: seq<Demand>)
    requires DistinctKeys(ds)
    ensures DistinctKeys([d] + Without(ds, [d.key]))
  {
    WithoutKeepsDistinct(ds, [d.key]);
    var rest := Without(ds, [d.key]);
    forall i | 0 <= i < |rest| ensures rest[i].key != d.key {
      assert rest[i] in rest;
    }
  }

  lemma {:induction false} WithoutNothing(ds: seq<Demand>)
    ensures Without(ds, []) == ds
  {
    if ds != [] {
      WithoutNothing(ds[1..]);
    }
  }

  // ------------------------------------------------------------------------
  // One route

  /** A reachable state, as far as its tiles go. */
  ghost predicate Good(tiles: seq<Tile>, sizeOf: TileKey -> nat) {
    DistinctTiles(tiles) && Sized(Resident(tiles), sizeOf)
  }

  /** A route of distinct tiles, each with its canonical size. */
  ghost predicate GoodRoute(demands: seq<Demand>, sizeOf: TileKey -> nat) {
    DistinctKeys(demands) && Sized(demands, sizeOf)
  }

  lemma {:induction false} PinnedSnoc(ds: seq<Demand>, keys: seq<TileKey>, key: TileKey, sizeOf: TileKey -> nat)
    requires DistinctKeys(ds) && Sized(ds, sizeOf) && key !in keys
    ensures PinnedBytes(ds, keys + [key])
         == PinnedBytes(ds, keys) + if exists i :: 0 <= i < |ds| && ds[i].key == key then sizeOf(key) else 0
  {
    if ds != [] {
      var d, rest := ds[0], ds[1..];
      PinnedSnoc(rest, keys, key, sizeOf);
      assert d.key in keys + [key] <==> d.key in keys || d.key == key;
      if i :| 0 <= i < |rest| && rest[i].key == key {
        assert ds[i + 1].key == key;
      } else {
        assert forall i :: 0 < i < |ds| ==> ds[i] == rest[i - 1];
      }
    }
  }

  /** What is pinned and what is missing make up the route. */
  lemma {:induction false} PinnedPlusMissing(tiles: seq<Tile>, demands: seq<Demand>, sizeOf: TileKey -> nat)
    requires Good(tiles, sizeOf) && GoodRoute(demands, sizeOf)
    ensures PinnedBytes(Resident(tiles), Keys(demands)) + MissingBytes(tiles, demands) == Total(demands)
    decreases |demands|
  {
    if demands == [] {
      assert Keys(demands) == [];
      PinnedNothing(Resident(tiles));
    } else {
      var n := |demands| - 1;
      var d, earlier := demands[n], demands[..n];
      PinnedPlusMissing(tiles, earlier, sizeOf);
      LastKeyIsNew(demands);
      PinnedSnoc(Resident(tiles), Keys(earlier), d.key, sizeOf);
      HoldsInResident(tiles, d.key);
      assert demands == earlier + [d];
      TotalAppend(earlier, [d]);
      assert Total([d]) == d.bytes by { assert [d][1..] == []; }
    }
  }

  lemma HoldsInResident(tiles: seq<Tile>, key: TileKey)
    ensures Holds(tiles, key) <==> exists i :: 0 <= i < |Resident(tiles)| && Resident(tiles)[i].key == key
  {
    if Holds(tiles, key) {
      var i :| 0 <= i < |tiles| && tiles[i].key == key;
      assert Resident(tiles)[i].key == key;
    }
    if i :| 0 <= i < |Resident(tiles)| && Resident(tiles)[i].key == key {
      assert tiles[i].key == key;
    }
  }

  lemma {:induction false} PinnedNothing(ds: seq<Demand>)
    ensures PinnedBytes(ds, []) == 0
  {
    if ds != [] {
      PinnedNothing(ds[1..]);
    }
  }

  lemma {:induction false} MakeRoomKeepsGood(capacity: nat, st: CacheState, pinned: seq<TileKey>, missing: nat,
                                             sizeOf: TileKey -> nat)
    requires Good(st.tiles, sizeOf)
    ensures Good(MakeRoom(capacity, st, pinned, missing).state.tiles, sizeOf)
    decreases |st.tiles|
  {
    if capacity < Bytes(st.tiles) + missing && LastUnpinned(st.tiles, pinned).Some? {
      var p := LastUnpinned(st.tiles, pinned).value;
      EvictShrinks(st, p);
      RemoveKeepsGood(st.tiles, p, sizeOf);
      MakeRoomKeepsGood(capacity, Evict(st, p), pinned, missing, sizeOf);
    }
  }

  lemma RemoveKeepsGood(tiles: seq<Tile>, p: nat, sizeOf: TileKey -> nat)
    requires Good(tiles, sizeOf) && p < |tiles|
    ensures Good(RemoveAt(tiles, p), sizeOf)
  {
    var rest := RemoveAt(tiles, p);
    forall i: nat | i < |rest| ensures Resident(rest)[i] == Resident(tiles)[if i < p then i else i + 1] {
    }
  }

  /** Main result: from any reachable state a route succeeds exactly when its own
      tiles fit the capacity, and then leaves itself resident in front of the
      most recent other tiles that still fit. */
  lemma RouteIs(capacity: nat, st: CacheState, demands: seq<Demand>, sizeOf: TileKey -> nat)
    requires Good(st.tiles, sizeOf) && GoodRoute(demands, sizeOf)
    ensures var r := Route(capacity, st, demands);
      && (r.Routed? <==> Total(demands) <= capacity)
      && Good(r.state.tiles, sizeOf)
      && (r.Routed? ==> Resident(r.state.tiles) == AfterRoute(Resident(st.tiles), demands, capacity))
  {
    hide Without, FitPrefix, Total, Reverse, Bytes, MakeRoom, TouchAll, Resident, MissingBytes, Counted;
    var counted := st.(result := Counted(st.result, st.tiles, demands));
    var keys, missing := Keys(demands), MissingBytes(st.tiles, demands);
    PinnedPlusMissing(st.tiles, demands, sizeOf);
    MakeRoomIs(capacity, counted, keys, missing);
    MakeRoomKeepsGood(capacity, counted, keys, missing, sizeOf);
    var room := MakeRoom(capacity, counted, keys, missing);
    if room.Routed? {
      TouchAllIs(room.state, demands, sizeOf);
    }
  }

  // ------------------------------------------------------------------------
  // Whole traces

  /** Replays a trace of routes; the first one that does not fit ends it. */
  function Replay(capacity: nat, events: seq<seq<Demand>>): RouteOutcome {
    if events == [] then Routed(EMPTY)
    else
      var n := |events| - 1;
      match Replay(capacity, events[..n])
      case TooSmall(st) => TooSmall(st)
      case Routed(st) => Route(capacity, st, events[n])
  }

  ghost predicate GoodTrace(events: seq<seq<Demand>>, sizeOf: TileKey -> nat) {
    forall i :: 0 <= i < |events| ==> GoodRoute(events[i], sizeOf)
  }

  ghost predicate Admissible(events: seq<seq<Demand>>, capacity: nat) {
    forall i :: 0 <= i < |events| ==> Total(events[i]) <= capacity
  }

  /** A trace replays exactly when each of its routes fits by itself. */
  lemma {:induction false} ReplaySucceedsIffAdmissible(capacity: nat, events: seq<seq<Demand>>, sizeOf: TileKey -> nat)
    requires GoodTrace(events, sizeOf)
    ensures Replay(capacity, events).Routed? <==> Admissible(events, capacity)
    ensures Good(Replay(capacity, events).state.tiles, sizeOf)
    decreases |events|
  {
    if events != [] {
      var n := |events| - 1;
      ReplaySucceedsIffAdmissible(capacity, events[..n], sizeOf);
      assert forall i :: 0 <= i < n ==> events[..n][i] == events[i];
      var r := Replay(capacity, events[..n]);
      if r.Routed? {
        assert Admissible(events, capacity) <==> Total(events[n]) <= capacity;
        RouteIs(capacity, r.state, events[n], sizeOf);
      }
    }
  }

  lemma {:induction false} HitsMonotone(r: TileReplayResult, r': TileReplayResult, small: seq<Tile>, large: seq<Tile>,
                                        demands: seq<Demand>)
    requires Resident(small) <= Resident(large) && r.tileHits <= r'.tileHits && r.tileDemands == r'.tileDemands
    ensures var c, c' := Counted(r, small, demands), Counted(r', large, demands);
      c.tileHits <= c'.tileHits && c.tileDemands == c'.tileDemands
    decreases |demands|
  {
    if demands != [] {
      var n := |demands| - 1;
      HitsMonotone(r, r', small, large, demands[..n]);
      HoldsInResident(small, demands[n].key);
      HoldsInResident(large, demands[n].key);
      if i :| 0 <= i < |Resident(small)| && Resident(small)[i].key == demands[n].key {
        assert Resident(large)[i].key == demands[n].key;
      }
    }
  }

  lemma {:induction false} MakeRoomKeepsCounts(capacity: nat, st: CacheState, pinned: seq<TileKey>, missing: nat)
    ensures var r := MakeRoom(capacity, st, pinned, missing).state.result;
      && r.tileDemands == st.result.tileDemands && r.tileHits == st.result.tileHits
         && r.tileMisses == st.result.tileMisses
      && r.rawMissBytes == st.result.rawMissBytes && r.readSyscalls == st.result.readSyscalls
      && r.overreadBytes == st.result.overreadBytes && r.peakResidentBytes == st.result.peakResidentBytes
    decreases |st.tiles|
  {
    if capacity < Bytes(st.tiles) + missing && LastUnpinned(st.tiles, pinned).Some? {
      var p := LastUnpinned(st.tiles, pinned).value;
      EvictShrinks(st, p);
      MakeRoomKeepsCounts(capacity, Evict(st, p), pinned, missing);
    }
  }

  lemma {:induction false} TouchAllKeepsCounts(st: CacheState, demands: seq<Demand>)
    ensures var r := TouchAll(st, demands).result;
      && r.tileDemands == st.result.tileDemands && r.tileHits == st.result.tileHits
         && r.tileMisses == st.result.tileMisses
      && r.evictions == st.result.evictions && r.fetchedNeverReusedBytes == st.result.fetchedNeverReusedBytes
    ensures TouchAll(st, demands).evictedBytes == st.evictedBytes
    decreases |demands|
  {
    if demands != [] {
      TouchAllKeepsCounts(st, demands[..|demands| - 1]);
    }
  }

  lemma RouteCounts(capacity: nat, st: CacheState, demands: seq<Demand>)
    ensures var c, r := Counted(st.result, st.tiles, demands), Route(capacity, st, demands).state.result;
      r.tileDemands == c.tileDemands && r.tileHits == c.tileHits && r.tileMisses == c.tileMisses
  {
    var counted := st.(result := Counted(st.result, st.tiles, demands));
    var keys, missing := Keys(demands), MissingBytes(st.tiles, demands);
    MakeRoomKeepsCounts(capacity, counted, keys, missing);
    TouchAllKeepsCounts(MakeRoom(capacity, counted, keys, missing).state, demands);
  }

  /** Main result: LRU inclusion. On every trace the smaller capacity admits, its
      contents are after every event the beginning of the larger one's, most
      recent first, and it has had no more hits. */
  lemma {:induction false} LargerCacheIncludesSmaller(events: seq<seq<Demand>>, c: nat, d: nat, sizeOf: TileKey -> nat)
    requires GoodTrace(events, sizeOf) && Admissible(events, c) && c <= d
    ensures var small, large := Replay(c, events), Replay(d, events);
      && small.Routed? && large.Routed?
      && Resident(small.state.tiles) <= Resident(large.state.tiles)
      && small.state.result.tileHits <= large.state.result.tileHits
      && small.state.result.tileDemands == large.state.result.tileDemands
    decreases |events|
  {
    hide AfterRoute, Counted, Route, DistinctKeys, Sized, Resident;
    if events != [] {
      var n := |events| - 1;
      assert forall i :: 0 <= i < n ==> events[..n][i] == events[i];
      LargerCacheIncludesSmaller(events[..n], c, d, sizeOf);
      ReplaySucceedsIffAdmissible(c, events[..n], sizeOf);
      ReplaySucceedsIffAdmissible(d, events[..n], sizeOf);
      var small, large := Replay(c, events[..n]).state, Replay(d, events[..n]).state;
      RouteIs(c, small, events[n], sizeOf);
      RouteIs(d, large, events[n], sizeOf);
      RouteKeepsInclusion(Resident(small.tiles), Resident(large.tiles), events[n], c, d);
      HitsMonotone(small.result, large.result, small.tiles, large.tiles, events[n]);
      RouteCounts(c, small, events[n]);
      RouteCounts(d, large, events[n]);
    }
  }

  // ------------------------------------------------------------------------
  // Conservation

  /** The books of a replay: every demand is a hit or a miss, every miss is one
      read, and every byte read is resident or was evicted. */
  ghost predicate Balanced(st: CacheState, capacity: nat) {
    var r := st.result;
    && r.tileDemands == r.tileHits + r.tileMisses
    && r.readSyscalls == r.tileMisses
    && r.rawMissBytes == Bytes(st.tiles) + st.evictedBytes
    && r.fetchedNeverReusedBytes <= st.evictedBytes
    && Bytes(st.tiles) <= r.peakResidentBytes <= capacity
  }

  function MissCount(tiles: seq<Tile>, demands: seq<Demand>): nat {
    if demands == [] then 0
    else MissCount(tiles, demands[..|demands| - 1]) + if Holds(tiles, demands[|demands| - 1].key) then 0 else 1
  }

  lemma {:induction false} CountedIs(r: TileReplayResult, tiles: seq<Tile>, demands: seq<Demand>)
    ensures var c, m := Counted(r, tiles, demands), MissCount(tiles, demands);
      && m <= |demands|
      && c == r.(tileDemands := r.tileDemands + |demands|, tileHits := r.tileHits + (|demands| - m),
         tileMisses := r.tileMisses + m)
    decreases |demands|
  {
    if demands != [] {
      CountedIs(r, tiles, demands[..|demands| - 1]);
    }
  }

  /** Evicting moves bytes from resident to evicted, and nothing pinned is touched. */
  lemma {:induction false} MakeRoomBalances(capacity: nat, st: CacheState, pinned: seq<TileKey>, missing: nat)
    requires st.result.fetchedNeverReusedBytes <= st.evictedBytes
    ensures var st' := MakeRoom(capacity, st, pinned, missing).state;
      && Bytes(st'.tiles) + st'.evictedBytes == Bytes(st.tiles) + st.evictedBytes
      && Bytes(st'.tiles) <= Bytes(st.tiles)
      && st'.result.fetchedNeverReusedBytes <= st'.evictedBytes
      && forall key :: key in pinned ==> (Holds(st'.tiles, key) <==> Holds(st.tiles, key))
    decreases |st.tiles|
  {
    if capacity < Bytes(st.tiles) + missing && LastUnpinned(st.tiles, pinned).Some? {
      var p := LastUnpinned(st.tiles, pinned).value;
      EvictShrinks(st, p);
      LastUnpinnedIs(st.tiles, pinned);
      BytesRemoveAt(st.tiles, p);
      forall key | key in pinned ensures Holds(Evict(st, p).tiles, key) <==> Holds(st.tiles, key) {
        HoldsAfterRemove(st.tiles, p, key);
      }
      MakeRoomBalances(capacity, Evict(st, p), pinned, missing);
    }
  }

  lemma HoldsAfterRemove(tiles: seq<Tile>, p: nat, key: TileKey)
    requires p < |tiles| && tiles[p].key != key
    ensures Holds(RemoveAt(tiles, p), key) <==> Holds(tiles, key)
  {
    if Holds(tiles, key) {
      var i :| 0 <= i < |tiles| && tiles[i].key == key;
      assert RemoveAt(tiles, p)[if i < p then i else i - 1].key == key;
    }
  }

  /** Whether a tile not named by a demand is resident does not change. */
  lemma HoldsAfterTouch(st: CacheState, d: Demand, key: TileKey)
    requires d.key != key
    ensures Holds(Touch(st, d).tiles, key) <==> Holds(st.tiles, key)
  {
    var after := Touch(st, d).tiles;
    if Holds(st.tiles, d.key) {
      var p := PositionOf(st.tiles, d.key);
      HoldsAfterRemove(st.tiles, p, key);
      assert after[1..] == RemoveAt(st.tiles, p);
    } else {
      assert after[1..] == st.tiles;
    }
    assert after[0].key == d.key;
    if Holds(after[1..], key) {
      var i :| 0 <= i < |after[1..]| && after[1..][i].key == key;
      assert after[i + 1].key == key;
    }
    if Holds(after, key) {
      var i :| 0 <= i < |after| && after[i].key == key;
      assert after[1..][i - 1].key == key;
    }
  }

  lemma {:induction false} HoldsAfterTouchAll(st: CacheState, demands: seq<Demand>, key: TileKey)
    requires key !in Keys(demands)
    ensures Holds(TouchAll(st, demands).tiles, key) <==> Holds(st.tiles, key)
    decreases |demands|
  {
    if demands != [] {
      var n := |demands| - 1;
      assert Keys(demands)[n] == demands[n].key;
      assert Keys(demands[..n]) == Keys(demands)[..n];
      HoldsAfterTouchAll(st, demands[..n], key);
      HoldsAfterTouch(TouchAll(st, demands[..n]), demands[n], key);
    }
  }

  /** Serving a route reads exactly its missing tiles, once each. */
  lemma {:induction false} TouchAllReads(st: CacheState, demands: seq<Demand>)
    requires DistinctKeys(demands) && Bytes(st.tiles) <= st.result.peakResidentBytes
    ensures var st' := TouchAll(st, demands);
      && st'.result.readSyscalls == st.result.readSyscalls + MissCount(st.tiles, demands)
      && st'.result.rawMissBytes == st.result.rawMissBytes + MissingBytes(st.tiles, demands)
      && Bytes(st'.tiles) == Bytes(st.tiles) + MissingBytes(st.tiles, demands)
      && Bytes(st'.tiles) <= st'.result.peakResidentBytes
      && (st'.result.peakResidentBytes == st.result.peakResidentBytes
         || st'.result.peakResidentBytes <= Bytes(st'.tiles))
    decreases |demands|
  {
    if demands != [] {
      var n := |demands| - 1;
      TouchAllReads(st, demands[..n]);
      LastKeyIsNew(demands);
      HoldsAfterTouchAll(st, demands[..n], demands[n].key);
      TouchBytes(TouchAll(st, demands[..n]), demands[n]);
    }
  }

  lemma TouchBytes(st: CacheState, d: Demand)
    ensures Bytes(Touch(st, d).tiles) == Bytes(st.tiles) + if Holds(st.tiles, d.key) then 0 else d.bytes
  {
    var after := Touch(st, d).tiles;
    if Holds(st.tiles, d.key) {
      var p := PositionOf(st.tiles, d.key);
      BytesRemoveAt(st.tiles, p);
      assert after[1..] == RemoveAt(st.tiles, p);
    } else {
      assert after[1..] == st.tiles;
    }
  }

  /** Main result: a route of distinct tiles that succeeds keeps the books. */
  lemma RouteKeepsBooks(capacity: nat, st: CacheState, demands: seq<Demand>, sizeOf: TileKey -> nat)
    requires Balanced(st, capacity) && Good(st.tiles, sizeOf) && GoodRoute(demands, sizeOf)
    ensures var r := Route(capacity, st, demands);
      r.Routed? ==> Balanced(r.state, capacity)
  {
    var counted := st.(result := Counted(st.result, st.tiles, demands));
    var keys, missing := Keys(demands), MissingBytes(st.tiles, demands);
    CountedIs(st.result, st.tiles, demands);
    MakeRoomKeepsCounts(capacity, counted, keys, missing);
    MakeRoomBalances(capacity, counted, keys, missing);
    MakeRoomIs(capacity, counted, keys, missing);
    var room := MakeRoom(capacity, counted, keys, missing);
    if room.Routed? {
      SameMisses(st.tiles, room.state.tiles, demands);
      TouchAllReads(room.state, demands);
      TouchAllKeepsCounts(room.state, demands);
    }
  }

  lemma {:induction false} SameMisses(before: seq<Tile>, after: seq<Tile>, demands: seq<Demand>)
    requires forall key :: key in Keys(demands) ==> (Holds(after, key) <==> Holds(before, key))
    ensures MissCount(after, demands) == MissCount(before, demands)
    ensures MissingBytes(after, demands) == MissingBytes(before, demands)
    decreases |demands|
  {
    if demands != [] {
      var n := |demands| - 1;
      assert Keys(demands)[n] == demands[n].key;
      assert Keys(demands[..n]) == Keys(demands)[..n];
      SameMisses(before, after, demands[..n]);
    }
  }

  /** Over every replay that succeeds the books balance. */
  lemma {:induction false} ReplayBalances(capacity: nat, events: seq<seq<Demand>>, sizeOf: TileKey -> nat)
    requires GoodTrace(events, sizeOf) && Admissible(events, capacity)
    ensures Replay(capacity, events).Routed? && Balanced(Replay(capacity, events).state, capacity)
    decreases |events|
  {
    if events != [] {
      var n := |events| - 1;
      assert forall i :: 0 <= i < n ==> events[..n][i] == events[i];
      ReplayBalances(capacity, events[..n], sizeOf);
      ReplaySucceedsIffAdmissible(capacity, events[..n], sizeOf);
      var st := Replay(capacity, events[..n]).state;
      RouteIs(capacity, st, events[n], sizeOf);
      RouteKeepsBooks(capacity, st, events[n], sizeOf);
    }
  }
}
