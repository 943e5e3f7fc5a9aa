/** Which fetched bytes an LRU replay calls wasted, in terms of nothing but the
    order of the demands and which of them hit. */
module LruReuse {
  import opened Wrappers
  import opened LruModel
  import opened LruTheorems

  /** One demand of a replay, and whether it hit. */
  datatype Served = Served(key: TileKey, bytes: nat, hit: bool)

  /** How the demands of a route fare, one after another. */
  ghost function RouteLog(st: CacheState, demands: seq<Demand>): seq<Served> {
    if demands == [] then []
    else
      var before, d := demands[..|demands| - 1], demands[|demands| - 1];
      RouteLog(st, before) + [Served(d.key, d.bytes, Holds(TouchAll(st, before).tiles, d.key))]
  }

  /** The state in which a route's tiles are touched: room has been made. */
  ghost function Ready(capacity: nat, st: CacheState, demands: seq<Demand>): CacheState {
    MakeRoom(capacity, st.(result := Counted(st.result, st.tiles, demands)), Keys(demands),
      MissingBytes(st.tiles, demands)).state
  }

  /** How all the demands of a trace fare. */
  ghost function Log(capacity: nat, events: seq<seq<Demand>>): seq<Served> {
    if events == [] then []
    else
      var n := |events| - 1;
      Log(capacity, events[..n]) + RouteLog(Ready(capacity, Replay(capacity, events[..n]).state, events[n]), events[n])
  }

  /** The last demand for the tile, if there has been one, was a miss. */
  ghost predicate LastMissed(log: seq<Served>, key: TileKey) {
    log != [] && if log[|log| - 1].key == key then !log[|log| - 1].hit else LastMissed(log[..|log| - 1], key)
  }

  /** The bytes of the hits that come next after a miss of the same tile: fetches
      that were reused. */
  ghost function Reused(log: seq<Served>): nat {
    if log == [] then 0
    else
      var before, last := log[..|log| - 1], log[|log| - 1];
      Reused(before) + if last.hit && LastMissed(before, last.key) then last.bytes else 0
  }

  /** The bytes of the misses: all that was fetched. */
  ghost function Fetched(log: seq<Served>): nat {
    if log == [] then 0 else Fetched(log[..|log| - 1]) + if log[|log| - 1].hit then 0 else log[|log| - 1].bytes
  }

  /** Resident bytes whose last demand was a miss: they may yet be reused. */
  ghost function Waiting(tiles: seq<Tile>, log: seq<Served>): nat {
    if tiles == [] then 0 else (if LastMissed(log, tiles[0].key) then tiles[0].bytes else 0) + Waiting(tiles[1..], log)
  }

  // ------------------------------------------------------------------------
  // One demand at a time

  /** Each tile is resident once, at its own size. */
  ghost predicate Kept(tiles: seq<Tile>, sizeOf: TileKey -> nat) {
    && (forall i, j :: 0 <= i < j < |tiles| ==> tiles[i].key != tiles[j].key)
    && forall i :: 0 <= i < |tiles| ==> tiles[i].bytes == sizeOf(tiles[i].key)
  }

  ghost predicate FreshIffMissed(tiles: seq<Tile>, log: seq<Served>) {
    forall i :: 0 <= i < |tiles| ==> (tiles[i].hits == 0 <==> LastMissed(log, tiles[i].key))
  }

  ghost predicate Settled(st: CacheState, log: seq<Served>, sizeOf: TileKey -> nat) {
    && Kept(st.tiles, sizeOf) && FreshIffMissed(st.tiles, log)
    && st.result.fetchedNeverReusedBytes + Reused(log) + Waiting(st.tiles, log) == Fetched(log)
       == st.result.rawMissBytes
  }

  lemma {:induction false} WaitingWithout(tiles: seq<Tile>, log: seq<Served>, p: nat)
    requires p < |tiles|
    ensures Waiting(tiles, log)
         == Waiting(RemoveAt(tiles, p), log) + if LastMissed(log, tiles[p].key) then tiles[p].bytes else 0
  {
    hide LastMissed;
    if p == 0 {
      assert RemoveAt(tiles, 0) == tiles[1..];
    } else {
      assert RemoveAt(tiles, p)[0] == tiles[0] && RemoveAt(tiles, p)[1..] == RemoveAt(tiles[1..], p - 1);
      WaitingWithout(tiles[1..], log, p - 1);
    }
  }

  /** A demand for another tile changes nothing. */
  lemma {:induction false} OthersWait(tiles: seq<Tile>, log: seq<Served>, e: Served)
    requires forall i :: 0 <= i < |tiles| ==> tiles[i].key != e.key
    ensures Waiting(tiles, log + [e]) == Waiting(tiles, log)
    ensures FreshIffMissed(tiles, log) ==> FreshIffMissed(tiles, log + [e])
  {
    assert (log + [e])[..|log|] == log;
    if tiles != [] {
      OthersWait(tiles[1..], log, e);
    }
  }

  lemma RemoveKept(tiles: seq<Tile>, p: nat, log: seq<Served>, sizeOf: TileKey -> nat)
    requires p < |tiles| && Kept(tiles, sizeOf) && FreshIffMissed(tiles, log)
    ensures Kept(RemoveAt(tiles, p), sizeOf) && FreshIffMissed(RemoveAt(tiles, p), log)
    ensures forall i :: 0 <= i < |RemoveAt(tiles, p)| ==> RemoveAt(tiles, p)[i].key != tiles[p].key
  {
    hide LastMissed;
    var rest := RemoveAt(tiles, p);
    forall i | 0 <= i < |rest| ensures rest[i] == tiles[if i < p then i else i + 1] {
    }
  }

  lemma EvictSettles(st: CacheState, p: nat, log: seq<Served>, sizeOf: TileKey -> nat)
    requires p < |st.tiles| && Settled(st, log, sizeOf)
    ensures Settled(Evict(st, p), log, sizeOf)
  {
    hide LastMissed, Kept, RemoveAt;
    RemoveKept(st.tiles, p, log, sizeOf);
    WaitingWithout(st.tiles, log, p);
  }

  lemma {:induction false} RoomSettles(capacity: nat, st: CacheState, pinned: seq<TileKey>, missing: nat,
                                       log: seq<Served>, sizeOf: TileKey -> nat)
    requires Settled(st, log, sizeOf)
    ensures Settled(MakeRoom(capacity, st, pinned, missing).state, log, sizeOf)
    decreases |st.tiles|
  {
    hide Settled;
    if capacity < Bytes(st.tiles) + missing && LastUnpinned(st.tiles, pinned).Some? {
      var p := LastUnpinned(st.tiles, pinned).value;
      EvictShrinks(st, p);
      EvictSettles(st, p, log, sizeOf);
      RoomSettles(capacity, Evict(st, p), pinned, missing, log, sizeOf);
    }
  }

  lemma NotHeld(tiles: seq<Tile>, key: TileKey)
    requires !Holds(tiles, key)
    ensures forall i :: 0 <= i < |tiles| ==> tiles[i].key != key
  {
  }

  /** A hit settles a fetch that was waiting; a miss starts one. */
  lemma TouchSettles(st: CacheState, d: Demand, log: seq<Served>, sizeOf: TileKey -> nat)
    requires Settled(st, log, sizeOf) && d.bytes == sizeOf(d.key)
    ensures Settled(Touch(st, d), log + [Served(d.key, d.bytes, Holds(st.tiles, d.key))], sizeOf)
  {
    var e := Served(d.key, d.bytes, Holds(st.tiles, d.key));
    assert (log + [e])[..|log|] == log;
    if Holds(st.tiles, d.key) {
      HitSettles(st, d, log, sizeOf);
    } else {
      NotHeld(st.tiles, d.key);
      OthersWait(st.tiles, log, e);
      FrontSettles(Tile(d.key, d.bytes, 0), st.tiles, log + [e], sizeOf);
    }
  }

  /** A tile put in front of others it differs from. */
  lemma FrontSettles(tile: Tile, rest: seq<Tile>, log: seq<Served>, sizeOf: TileKey -> nat)
    requires Kept(rest, sizeOf) && FreshIffMissed(rest, log) && tile.bytes == sizeOf(tile.key)
    requires (forall i :: 0 <= i < |rest| ==> rest[i].key != tile.key)
      && (tile.hits == 0 <==> LastMissed(log, tile.key))
    ensures Kept([tile] + rest, sizeOf) && FreshIffMissed([tile] + rest, log)
    ensures Waiting([tile] + rest, log) == Waiting(rest, log) + if LastMissed(log, tile.key) then tile.bytes else 0
  {
    hide LastMissed;
    assert ([tile] + rest)[1..] == rest;
  }

  lemma HitSettles(st: CacheState, d: Demand, log: seq<Served>, sizeOf: TileKey -> nat)
    requires Settled(st, log, sizeOf) && d.bytes == sizeOf(d.key) && Holds(st.tiles, d.key)
    ensures Settled(Touch(st, d), log + [Served(d.key, d.bytes, true)], sizeOf)
  {
    hide RemoveAt, PositionOf, Holds;
    var e, p := Served(d.key, d.bytes, true), PositionOf(st.tiles, d.key);
    var tile := st.tiles[p];
    assert (log + [e])[..|log|] == log;
    WaitingWithout(st.tiles, log, p);
    RemoveKept(st.tiles, p, log, sizeOf);
    OthersWait(RemoveAt(st.tiles, p), log, e);
    FrontSettles(tile.(hits := tile.hits + 1), RemoveAt(st.tiles, p), log + [e], sizeOf);
  }

  lemma {:induction false} RouteSettles(st: CacheState, demands: seq<Demand>, log: seq<Served>, sizeOf: TileKey -> nat)
    requires Settled(st, log, sizeOf) && Sized(demands, sizeOf)
    ensures Settled(TouchAll(st, demands), log + RouteLog(st, demands), sizeOf)
    decreases |demands|
  {
    hide Settled, Touch, Holds;
    if demands == [] {
      assert log + [] == log;
    } else {
      var before, d := demands[..|demands| - 1], demands[|demands| - 1];
      RouteSettles(st, before, log, sizeOf);
      TouchSettles(TouchAll(st, before), d, log + RouteLog(st, before), sizeOf);
      ConcatAssoc(log, RouteLog(st, before), [Served(d.key, d.bytes, Holds(TouchAll(st, before).tiles, d.key))]);
    }
  }

  lemma {:induction false} TraceSettles(capacity: nat, events: seq<seq<Demand>>, sizeOf: TileKey -> nat)
    requires GoodTrace(events, sizeOf) && Admissible(events, capacity)
    ensures Replay(capacity, events).Routed? && Settled(Replay(capacity, events).state, Log(capacity, events), sizeOf)
    decreases |events|
  {
    hide MakeRoom, TouchAll, RouteLog, Settled, Bytes, MissingBytes, Keys, Counted;
    ReplaySucceedsIffAdmissible(capacity, events, sizeOf);
    if events == [] {
      EmptySettles(sizeOf);
    } else {
      var n := |events| - 1;
      assert forall i :: 0 <= i < n ==> events[..n][i] == events[i];
      TraceSettles(capacity, events[..n], sizeOf);
      var st, log := Replay(capacity, events[..n]).state, Log(capacity, events[..n]);
      var counted := st.(result := Counted(st.result, st.tiles, events[n]));
      CountingSettles(st, events[n], log, sizeOf);
      RoomSettles(capacity, counted, Keys(events[n]), MissingBytes(st.tiles, events[n]), log, sizeOf);
      RouteSettles(Ready(capacity, st, events[n]), events[n], log, sizeOf);
    }
  }

  /** Main result: over every replay the bytes fetched and never reused are those of
      the misses not followed by a hit of the same tile, less what is still resident
      and may yet be hit. */
  lemma WastedIsNeverReused(capacity: nat, events: seq<seq<Demand>>, sizeOf: TileKey -> nat)
    requires GoodTrace(events, sizeOf) && Admissible(events, capacity)
    ensures Replay(capacity, events).Routed?
    ensures var st, log := Replay(capacity, events).state, Log(capacity, events);
      st.result.fetchedNeverReusedBytes + Reused(log) + Waiting(st.tiles, log) == Fetched(log) == st.result.rawMissBytes
  {
    hide Replay, Log, Reused, Fetched, Waiting, Kept, FreshIffMissed;
    TraceSettles(capacity, events, sizeOf);
  }

  lemma EmptySettles(sizeOf: TileKey -> nat)
    ensures Settled(EMPTY, [], sizeOf)
  {
  }

  lemma CountingSettles(st: CacheState, demands: seq<Demand>, log: seq<Served>, sizeOf: TileKey -> nat)
    requires Settled(st, log, sizeOf)
    ensures Settled(st.(result := Counted(st.result, st.tiles, demands)), log, sizeOf)
  {
    CountedIs(st.result, st.tiles, demands);
  }
}
