/** What a byte-budgeted LRU replay does to the sequence of resident tiles, most
    recently used first: the specification the linked-list cache is proved
    against, and about which the replay's promises are proved. */
module LruModel {
  import opened Wrappers

  datatype TileKey = TileKey(layer: nat, expert: nat, tileIndex: nat)

  datatype Tile = Tile(key: TileKey, bytes: nat, hits: nat)

  /** One tile asked for by a route. */
  datatype Demand = Demand(key: TileKey, bytes: nat)

  datatype TileReplayResult = TileReplayResult(
    tileDemands: nat,
    tileHits: nat,
    tileMisses: nat,
    rawMissBytes: nat,
    readSyscalls: nat,
    overreadBytes: nat,
    fetchedNeverReusedBytes: nat,
    evictions: nat,
    peakResidentBytes: nat)

  const ZERO_RESULT := TileReplayResult(0, 0, 0, 0, 0, 0, 0, 0, 0)

  /** `evictedBytes` is not reported by the replay; it is what conservation is
      stated with. */
  datatype CacheState = CacheState(tiles: seq<Tile>, result: TileReplayResult, evictedBytes: nat)

  const EMPTY := CacheState([], ZERO_RESULT, 0)

  function RemoveAt<T>(s: seq<T>, p: nat): (r: seq<T>)
    requires p < |s|
  {
    s[..p] + s[p + 1..]
  }

  function Bytes(tiles: seq<Tile>): nat {
    if tiles == [] then 0 else tiles[0].bytes + Bytes(tiles[1..])
  }

  predicate Holds(tiles: seq<Tile>, key: TileKey) {
    exists i :: 0 <= i < |tiles| && tiles[i].key == key
  }

  function PositionOf(tiles: seq<Tile>, key: TileKey): (p: nat)
    requires Holds(tiles, key)
    ensures p < |tiles| && tiles[p].key == key
  {
    if tiles[0].key == key then 0
    else
      assert Holds(tiles[1..], key) by {
        var i :| 0 <= i < |tiles| && tiles[i].key == key;
        assert tiles[1..][i - 1].key == key;
      }
      1 + PositionOf(tiles[1..], key)
  }

  // ------------------------------------------------------------------------
  // One route

  /** Bytes of the demanded tiles that are not resident. */
  function MissingBytes(tiles: seq<Tile>, demands: seq<Demand>): nat {
    if demands == [] then 0
    else
      var last := demands[|demands| - 1];
      MissingBytes(tiles, demands[..|demands| - 1]) + if Holds(tiles, last.key) then 0 else last.bytes
  }

  function Counted(r: TileReplayResult, tiles: seq<Tile>, demands: seq<Demand>): TileReplayResult {
    if demands == [] then r
    else
      var c := Counted(r, tiles, demands[..|demands| - 1]);
      if Holds(tiles, demands[|demands| - 1].key)
      then c.(tileDemands := c.tileDemands + 1, tileHits := c.tileHits + 1)
      else c.(tileDemands := c.tileDemands + 1, tileMisses := c.tileMisses + 1)
  }

  function Keys(demands: seq<Demand>): seq<TileKey> {
    seq(|demands|, i requires 0 <= i < |demands| => demands[i].key)
  }

  /** The least recently used tile that is not pinned. */
  function LastUnpinned(tiles: seq<Tile>, pinned: seq<TileKey>): (r: Option<nat>)
    ensures r.Some? ==> r.value < |tiles|
  {
    if tiles == [] then None
    else if tiles[|tiles| - 1].key !in pinned then Some(|tiles| - 1)
    else LastUnpinned(tiles[..|tiles| - 1], pinned)
  }

  function Evict(st: CacheState, p: nat): CacheState
    requires p < |st.tiles|
  {
    var tile, r := st.tiles[p], st.result;
    CacheState(
      RemoveAt(st.tiles, p),
      r.(evictions := r.evictions + 1,
         fetchedNeverReusedBytes := r.fetchedNeverReusedBytes + if tile.hits == 0 then tile.bytes else 0),
      st.evictedBytes + tile.bytes)
  }

  datatype RouteOutcome = Routed(state: CacheState) | TooSmall(state: CacheState)

  /** Evict until `missing` more bytes fit. */
  function MakeRoom(capacity: nat, st: CacheState, pinned: seq<TileKey>, missing: nat): RouteOutcome
    decreases |st.tiles|
  {
    if Bytes(st.tiles) + missing <= capacity then Routed(st)
    else
      match LastUnpinned(st.tiles, pinned)
      case None => TooSmall(st)
      case Some(p) => MakeRoom(capacity, Evict(st, p), pinned, missing)
  }

  function RoundUp(bytes: nat): (r: nat)
    ensures bytes <= r < bytes + 4096 && r % 4096 == 0
  {
    (bytes + 4095) / 4096 * 4096
  }

  /** Serve one demand: a resident tile becomes most recent, a missing one is fetched. */
  function Touch(st: CacheState, d: Demand): CacheState {
    if Holds(st.tiles, d.key) then
      var p := PositionOf(st.tiles, d.key);
      var tile := st.tiles[p];
      st.(tiles := [tile.(hits := tile.hits + 1)] + RemoveAt(st.tiles, p))
    else
      var r, tiles := st.result, [Tile(d.key, d.bytes, 0)] + st.tiles;
      st.(tiles := tiles,
          result := r.(rawMissBytes := r.rawMissBytes + d.bytes,
                       readSyscalls := r.readSyscalls + 1,
                       overreadBytes := r.overreadBytes + (RoundUp(d.bytes) - d.bytes),
                       peakResidentBytes := if Bytes(tiles) > r.peakResidentBytes
                         then Bytes(tiles) else r.peakResidentBytes))
  }

  function TouchAll(st: CacheState, demands: seq<Demand>): CacheState {
    if demands == [] then st
    else Touch(TouchAll(st, demands[..|demands| - 1]), demands[|demands| - 1])
  }

  function Route(capacity: nat, st: CacheState, demands: seq<Demand>): RouteOutcome {
    var counted := st.(result := Counted(st.result, st.tiles, demands));
    match MakeRoom(capacity, counted, Keys(demands), MissingBytes(st.tiles, demands))
    case TooSmall(st') => TooSmall(st')
    case Routed(st') => Routed(TouchAll(st', demands))
  }

  // ------------------------------------------------------------------------
  // What a route demands

  function TilesOf(layer: nat, expert: nat, sizes: seq<nat>): seq<Demand> {
    seq(|sizes|, t requires 0 <= t < |sizes| => Demand(TileKey(layer, expert, t), sizes[t]))
  }

  function Demands(layer: nat, experts: seq<nat>, sizes: seq<nat>): seq<Demand> {
    if experts == [] then []
    else Demands(layer, experts[..|experts| - 1], sizes) + TilesOf(layer, experts[|experts| - 1], sizes)
  }

  lemma {:induction false} BytesRemoveAt(tiles: seq<Tile>, p: nat)
    requires p < |tiles|
    ensures Bytes(RemoveAt(tiles, p)) + tiles[p].bytes == Bytes(tiles)
  {
    if p == 0 {
      assert RemoveAt(tiles, 0) == tiles[1..];
    } else {
      assert RemoveAt(tiles, p)[0] == tiles[0] && RemoveAt(tiles, p)[1..] == RemoveAt(tiles[1..], p - 1);
      BytesRemoveAt(tiles[1..], p - 1);
    }
  }
}
