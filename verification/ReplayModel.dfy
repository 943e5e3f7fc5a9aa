/** What the whole-expert replays do to the set of resident experts: the
    specification both replay caches are proved against, whatever the order of
    their entry vectors. */
module ReplayModel {
  import opened Wrappers

  const ROUTED := 8

  datatype Key = Key(layer: nat, expert: nat)

  datatype Use = Use(bytes: nat, lastUse: nat, probation: bool)

  datatype Entry = Entry(key: Key, use: Use)

  type Contents = map<Key, Use>

  ghost predicate UniqueKeys(entries: seq<Entry>) {
    forall i, j :: 0 <= i < j < |entries| ==> entries[i].key != entries[j].key
  }

  function Holding(entries: seq<Entry>): Contents {
    if entries == [] then map[]
    else
      var last := entries[|entries| - 1];
      Holding(entries[..|entries| - 1])[last.key := last.use]
  }

  /** The order of eviction: demanded entries before probation entries, then by
      last use, layer and expert. */
  predicate Before(k: Key, a: Use, l: Key, b: Use) {
    if a.probation != b.probation then !a.probation
    else if a.lastUse != b.lastUse then a.lastUse < b.lastUse
    else if k.layer != l.layer then k.layer < l.layer
    else k.expert < l.expert
  }

  ghost predicate IsVictim(m: Contents, pinned: set<Key>, k: Key) {
    k in m && k !in pinned && forall l :: l in m && l !in pinned && l != k ==> Before(k, m[k], l, m[l])
  }

  ghost function Victim(m: Contents, pinned: set<Key>): (v: Option<Key>)
    ensures v.Some? ==> IsVictim(m, pinned, v.value)
  {
    if exists k :: IsVictim(m, pinned, k) then
      var k :| IsVictim(m, pinned, k);
      Some(k)
    else None
  }

  ghost function Bytes(m: Contents): nat
    decreases |m|
  {
    if m == map[] then 0
    else
      var k :| k in m;
      m[k].bytes + Bytes(m - {k})
  }

  /** Evict in order until `required` more bytes fit or only pinned experts are left. */
  ghost function EvictFor(m: Contents, pinned: set<Key>, required: nat, capacity: nat): Contents
    decreases |m|
  {
    if Bytes(m) + required <= capacity then m
    else
      match Victim(m, pinned)
      case None => m
      case Some(k) => EvictFor(m - {k}, pinned, required, capacity)
  }

  function Pins(layer: nat, experts: seq<nat>): set<Key> {
    set e | e in experts :: Key(layer, e)
  }

  function Uniform(bytes: nat): Key -> nat {
    _ => bytes
  }

  /** Hits become demanded and most recent; misses are admitted. */
  function Serve(m: Contents, layer: nat, experts: seq<nat>, sizeOf: Key -> nat, clock: nat): Contents {
    if experts == [] then m
    else
      var k := Key(layer, experts[|experts| - 1]);
      var done := Serve(m, layer, experts[..|experts| - 1], sizeOf, clock);
      done[k := Use(if k in m then m[k].bytes else sizeOf(k), clock, false)]
  }

  function MissBytes(m: Contents, layer: nat, experts: seq<nat>, sizeOf: Key -> nat): nat {
    if experts == [] then 0
    else
      var k := Key(layer, experts[|experts| - 1]);
      MissBytes(m, layer, experts[..|experts| - 1], sizeOf) + if k in m then 0 else sizeOf(k)
  }

  function Hits(m: Contents, layer: nat, experts: seq<nat>): nat {
    if experts == [] then 0
    else
      Hits(m, layer, experts[..|experts| - 1]) + if Key(layer, experts[|experts| - 1]) in m then 1 else 0
  }

  /** The experts of a route, each where it is named first. */
  function Firsts(experts: seq<nat>): (r: seq<nat>)
    ensures |r| <= |experts|
  {
    if experts == [] then []
    else
      var n := |experts| - 1;
      Firsts(experts[..n]) + if experts[n] in experts[..n] then [] else [experts[n]]
  }

  lemma {:induction false} FirstsAre(experts: seq<nat>)
    ensures Distinct(Firsts(experts))
    ensures forall e :: e in Firsts(experts) <==> e in experts
  {
    if experts != [] {
      var n := |experts| - 1;
      FirstsAre(experts[..n]);
      assert experts == experts[..n] + [experts[n]];
    }
  }

  lemma {:induction false} FirstsOfDistinct(experts: seq<nat>)
    requires Distinct(experts)
    ensures Firsts(experts) == experts
  {
    if experts != [] {
      var n := |experts| - 1;
      FirstsOfDistinct(experts[..n]);
      assert experts == experts[..n] + [experts[n]];
    }
  }

  /** Fewer firsts than experts exactly when one is named twice. */
  lemma {:induction false} FirstsAreAllIff(experts: seq<nat>)
    ensures |Firsts(experts)| == |experts| <==> Distinct(experts)
  {
    if Distinct(experts) {
      FirstsOfDistinct(experts);
    } else if experts != [] {
      var n := |experts| - 1;
      FirstsAreAllIff(experts[..n]);
      assert experts == experts[..n] + [experts[n]];
      if Distinct(experts[..n]) {
        assert experts[n] in experts[..n];
      }
    }
  }

  lemma FirstsSnoc(experts: seq<nat>, i: nat)
    requires i < |experts|
    ensures Firsts(experts[..i + 1]) ==
      if experts[i] in experts[..i] then Firsts(experts[..i]) else Firsts(experts[..i]) + [experts[i]]
  {
    assert experts[..i + 1][..i] == experts[..i];
  }

  lemma {:induction false} FirstsPrefix(experts: seq<nat>, i: nat)
    requires i <= |experts|
    ensures Firsts(experts[..i]) <= Firsts(experts)
    decreases |experts|
  {
    if i < |experts| {
      var n := |experts| - 1;
      FirstsPrefix(experts[..n], i);
      assert experts[..n][..i] == experts[..i];
    } else {
      assert experts[..i] == experts;
    }
  }

  lemma PinsOfFirsts(layer: nat, experts: seq<nat>)
    ensures Pins(layer, Firsts(experts)) == Pins(layer, experts)
  {
    FirstsAre(experts);
  }

  // ------------------------------------------------------------------------
  // Bytes

  lemma {:induction false} BytesWithout(m: Contents, k: Key)
    requires k in m
    ensures Bytes(m) == m[k].bytes + Bytes(m - {k})
    decreases |m|
  {
    var l: Key :| l in m && Bytes(m) == m[l].bytes + Bytes(m - {l});
    if l != k {
      BytesWithout(m - {l}, k);
      BytesWithout(m - {k}, l);
      assert m - {l} - {k} == m - {k} - {l};
    }
  }

  lemma BytesWith(m: Contents, k: Key, u: Use)
    ensures Bytes(m[k := u]) == Bytes(m) - (if k in m then m[k].bytes else 0) + u.bytes
  {
    BytesWithout(m[k := u], k);
    assert m[k := u] - {k} == m - {k};
    if k in m {
      BytesWithout(m, k);
    } else {
      assert m - {k} == m;
    }
  }

  lemma {:induction false} BytesMonotone(m: Contents, n: Contents)
    requires forall k :: k in m ==> k in n && m[k].bytes == n[k].bytes
    ensures Bytes(m) <= Bytes(n)
    decreases |m|
  {
    if m != map[] {
      var k :| k in m;
      BytesWithout(m, k);
      BytesWithout(n, k);
      BytesMonotone(m - {k}, n - {k});
    }
  }

  // ------------------------------------------------------------------------
  // The entry vector

  lemma {:induction false} HoldingHas(entries: seq<Entry>, i: nat)
    requires UniqueKeys(entries) && i < |entries|
    ensures entries[i].key in Holding(entries) && Holding(entries)[entries[i].key] == entries[i].use
  {
    if i < |entries| - 1 {
      HoldingHas(entries[..|entries| - 1], i);
    }
  }

  lemma {:induction false} HoldingOnly(entries: seq<Entry>, k: Key) returns (i: nat)
    requires k in Holding(entries)
    ensures i < |entries| && entries[i].key == k
  {
    if entries[|entries| - 1].key == k {
      i := |entries| - 1;
    } else {
      i := HoldingOnly(entries[..|entries| - 1], k);
    }
  }

  lemma HoldingAppend(entries: seq<Entry>, e: Entry)
    ensures Holding(entries + [e]) == Holding(entries)[e.key := e.use]
  {
    assert (entries + [e])[..|entries|] == entries;
  }

  lemma {:induction false} HoldingUpdate(entries: seq<Entry>, i: nat, u: Use)
    requires UniqueKeys(entries) && i < |entries|
    ensures UniqueKeys(entries[i := Entry(entries[i].key, u)])
    ensures Holding(entries[i := Entry(entries[i].key, u)]) == Holding(entries)[entries[i].key := u]
  {
    var n := |entries| - 1;
    var after := entries[i := Entry(entries[i].key, u)];
    if i < n {
      HoldingUpdate(entries[..n], i, u);
      assert after[..n] == entries[..n][i := Entry(entries[i].key, u)];
    } else {
      assert after[..n] == entries[..n];
    }
  }

  lemma SwapRemoveAt<T>(s: seq<T>, i: nat, j: nat)
    requires i < |s| && j < |s| - 1
    ensures SwapRemove(s, i)[j] == s[if j == i then |s| - 1 else j]
  {
  }

  lemma SwapRemoveKeepsUnique(entries: seq<Entry>, i: nat)
    requires UniqueKeys(entries) && i < |entries|
    ensures UniqueKeys(SwapRemove(entries, i))
  {
    hide SwapRemove;
    var after := SwapRemove(entries, i);
    forall j, k | 0 <= j < k < |after| ensures after[j].key != after[k].key {
      SwapRemoveAt(entries, i, j);
      SwapRemoveAt(entries, i, k);
    }
  }

  /** `swap_remove` drops one key, whatever it does to the order. */
  lemma HoldingSwapRemove(entries: seq<Entry>, i: nat)
    requires UniqueKeys(entries) && i < |entries|
    ensures UniqueKeys(SwapRemove(entries, i))
    ensures Holding(SwapRemove(entries, i)) == Holding(entries) - {entries[i].key}
  {
    SwapRemoveKeepsUnique(entries, i);
    hide Holding, SwapRemove, UniqueKeys;
    var before, after, gone := Holding(entries), Holding(SwapRemove(entries, i)), entries[i].key;
    forall k | k in before && k != gone ensures k in after && after[k] == before[k] {
      StaysAfterRemoval(entries, i, k);
    }
    forall k | k in after ensures k in before && k != gone {
      WasThereBefore(entries, i, k);
    }
    OneLess(before, after, gone);
  }

  lemma OneLess(m: Contents, n: Contents, gone: Key)
    requires forall k :: k in m && k != gone ==> k in n && n[k] == m[k]
    requires forall k :: k in n ==> k in m && k != gone
    ensures n == m - {gone}
  {
  }

  lemma StaysAfterRemoval(entries: seq<Entry>, i: nat, k: Key)
    requires UniqueKeys(entries) && i < |entries| && UniqueKeys(SwapRemove(entries, i))
    requires k in Holding(entries) && k != entries[i].key
    ensures k in Holding(SwapRemove(entries, i)) && Holding(SwapRemove(entries, i))[k] == Holding(entries)[k]
  {
    hide Holding, SwapRemove, UniqueKeys;
    var j := HoldingOnly(entries, k);
    HoldingHas(entries, j);
    var j' := if j == |entries| - 1 then i else j;
    SwapRemoveAt(entries, i, j');
    HoldingHas(SwapRemove(entries, i), j');
  }

  lemma WasThereBefore(entries: seq<Entry>, i: nat, k: Key)
    requires UniqueKeys(entries) && i < |entries| && UniqueKeys(SwapRemove(entries, i))
    requires k in Holding(SwapRemove(entries, i))
    ensures k in Holding(entries) && k != entries[i].key
  {
    hide Holding, SwapRemove;
    var j := HoldingOnly(SwapRemove(entries, i), k);
    SwapRemoveAt(entries, i, j);
    var j' := if j == i then |entries| - 1 else j;
    HoldingHas(entries, j');
    assert entries[i].key != entries[j'].key;
  }

  /** Where `key` is, if it is resident. */
  method FindEntry(entries: seq<Entry>, key: Key) returns (r: Option<nat>)
    requires UniqueKeys(entries)
    ensures r.Some? ==> r.value < |entries| && entries[r.value].key == key && key in Holding(entries)
                        && Holding(entries)[key] == entries[r.value].use
    ensures r.None? ==> key !in Holding(entries)
  {
    hide Holding;
    for i := 0 to |entries|
      invariant forall j :: 0 <= j < i ==> entries[j].key != key
    {
      if entries[i].key == key {
        HoldingHas(entries, i);
        return Some(i);
      }
    }
    if key in Holding(entries) {
      ghost var j := HoldingOnly(entries, key);
    }
    return None;
  }

  ghost predicate FirstOut(entries: seq<Entry>, pinned: set<Key>, n: nat, best: Option<nat>)
    requires n <= |entries|
  {
    match best
    case None => forall j :: 0 <= j < n ==> entries[j].key in pinned
    case Some(b) =>
      && b < n && entries[b].key !in pinned
      && forall j :: 0 <= j < n && j != b && entries[j].key !in pinned ==>
           Before(entries[b].key, entries[b].use, entries[j].key, entries[j].use)
  }

  /** The entry to evict next: the unpinned one first in the order. */
  method FindVictim(entries: seq<Entry>, pinned: set<Key>) returns (best: Option<nat>)
    requires UniqueKeys(entries)
    ensures best.Some? ==> best.value < |entries| && Victim(Holding(entries), pinned) == Some(entries[best.value].key)
    ensures best.None? ==> Victim(Holding(entries), pinned) == None
  {
    hide Holding, Victim;
    best := None;
    for i := 0 to |entries|
      invariant FirstOut(entries, pinned, i, best)
    {
      if entries[i].key !in pinned
         && (best.None? || Before(entries[i].key, entries[i].use, entries[best.value].key, entries[best.value].use)) {
        best := Some(i);
      }
    }
    FirstOutIsVictim(entries, pinned, best);
  }

  lemma FirstOutIsVictim(entries: seq<Entry>, pinned: set<Key>, best: Option<nat>)
    requires UniqueKeys(entries) && FirstOut(entries, pinned, |entries|, best)
    ensures best.Some? ==> Victim(Holding(entries), pinned) == Some(entries[best.value].key)
    ensures best.None? ==> Victim(Holding(entries), pinned) == None
  {
    hide Holding;
    var m := Holding(entries);
    match best
    case None =>
      forall k ensures !IsVictim(m, pinned, k) {
        if k in m {
          var j := HoldingOnly(entries, k);
        }
      }
    case Some(b) =>
      HoldingHas(entries, b);
      forall l | l in m && l !in pinned && l != entries[b].key
        ensures Before(entries[b].key, m[entries[b].key], l, m[l])
      {
        var j := HoldingOnly(entries, l);
        HoldingHas(entries, j);
      }
      VictimIsUnique(m, pinned, entries[b].key);
  }

  lemma VictimIsUnique(m: Contents, pinned: set<Key>, k: Key)
    requires IsVictim(m, pinned, k)
    ensures Victim(m, pinned) == Some(k)
  {
  }

  // ------------------------------------------------------------------------
  // Eviction leaves the pinned experts alone and frees what can be freed

  /** The unpinned part always has a victim. */
  lemma {:induction false} VictimExists(m: Contents, pinned: set<Key>, k: Key)
    requires k in m && k !in pinned
    ensures Victim(m, pinned).Some?
    decreases |m|
  {
    hide Victim;
    var rest := m - {k};
    if l: Key :| l in rest && l !in pinned {
      VictimExists(rest, pinned, l);
      var v := Victim(rest, pinned).value;
      VictimOf(rest, pinned);
      var w := if Before(k, m[k], v, m[v]) then k else v;
      assert IsVictim(m, pinned, w);
      VictimIsUnique(m, pinned, w);
    } else {
      assert IsVictim(m, pinned, k);
      VictimIsUnique(m, pinned, k);
    }
  }

  lemma VictimOf(m: Contents, pinned: set<Key>)
    ensures Victim(m, pinned).Some? ==> IsVictim(m, pinned, Victim(m, pinned).value)
  {
  }

  /** Probation entries leave last: one goes only when no demanded entry is left
      to evict. The comment on the comparator says that they go first. */
  lemma ProbationLeavesLast(m: Contents, pinned: set<Key>, k: Key)
    requires Victim(m, pinned) == Some(k) && m[k].probation
    ensures forall l :: l in m && l !in pinned ==> m[l].probation
  {
    VictimOf(m, pinned);
    hide Victim;
    forall l | l in m && l !in pinned ensures m[l].probation {
      assert l != k ==> Before(k, m[k], l, m[l]);
    }
  }

  /** Over a whole run of evictions, what goes is not pinned and goes before all
      that stays and is not pinned: demanded entries first, then by last use, layer
      and expert. */
  lemma {:induction false} EvictedGoFirst(m: Contents, pinned: set<Key>, required: nat, capacity: nat, k: Key, l: Key)
    requires k in m && k !in EvictFor(m, pinned, required, capacity)
    requires l in m && l in EvictFor(m, pinned, required, capacity) && l !in pinned
    ensures k !in pinned && (m[k].probation ==> m[l].probation)
    ensures m[k].probation == m[l].probation ==> m[k].lastUse <= m[l].lastUse
    ensures m[k].probation == m[l].probation && m[k].lastUse == m[l].lastUse ==>
              k.layer < l.layer || (k.layer == l.layer && k.expert < l.expert)
    decreases |m|
  {
    hide Victim, Bytes;
    VictimOf(m, pinned);
    var v := Victim(m, pinned).value;
    EvictionIs(m - {v}, pinned, required, capacity);
    if k == v {
      assert Before(k, m[k], l, m[l]);
    } else {
      EvictedGoFirst(m - {v}, pinned, required, capacity, k, l);
    }
  }

  /** Of a demanded expert used last and an older expert that nobody asked for,
      the demanded one is evicted. */
  lemma DemandedLeavesFirst(k: Key, l: Key, bytes: nat)
    requires k != l
    ensures Victim(map[k := Use(bytes, 2, false), l := Use(bytes, 1, true)], {}) == Some(k)
  {
    VictimIsUnique(map[k := Use(bytes, 2, false), l := Use(bytes, 1, true)], {}, k);
  }

  ghost function Pinned(m: Contents, pinned: set<Key>): Contents {
    map k | k in m && k in pinned :: m[k]
  }

  lemma {:induction false} EvictionIs(m: Contents, pinned: set<Key>, required: nat, capacity: nat)
    ensures var kept := EvictFor(m, pinned, required, capacity);
      && kept.Keys <= m.Keys
      && (forall k :: k in kept ==> kept[k] == m[k])
      && (forall k :: k in m && k in pinned ==> k in kept)
      && (Bytes(kept) + required <= capacity <==> Bytes(Pinned(m, pinned)) + required <= capacity)
    decreases |m|
  {
    hide Victim, Bytes;
    BytesMonotone(Pinned(m, pinned), m);
    if Bytes(m) + required > capacity {
      match Victim(m, pinned)
      case None =>
        assert forall k :: k in m ==> k in pinned by {
          forall k | k in m ensures k in pinned {
            if k !in pinned {
              VictimExists(m, pinned, k);
            }
          }
        }
        assert Pinned(m, pinned) == m;
      case Some(k) =>
        VictimOf(m, pinned);
        EvictionIs(m - {k}, pinned, required, capacity);
        assert Pinned(m - {k}, pinned) == Pinned(m, pinned);
    }
  }

  // ------------------------------------------------------------------------
  // One route, entry by entry

  /** Marking the hits, as the prefetch replay does before it evicts. */
  function Mark(m: Contents, layer: nat, experts: seq<nat>, clock: nat): Contents {
    if experts == [] then m
    else
      var k := Key(layer, experts[|experts| - 1]);
      var done := Mark(m, layer, experts[..|experts| - 1], clock);
      if k in m then done[k := Use(m[k].bytes, clock, false)] else done
  }

  /** Admitting what is missing, as it does afterwards. */
  function Admit(m: Contents, layer: nat, experts: seq<nat>, bytes: nat, clock: nat): Contents {
    if experts == [] then m
    else
      var k := Key(layer, experts[|experts| - 1]);
      var done := Admit(m, layer, experts[..|experts| - 1], bytes, clock);
      if k in m then done else done[k := Use(bytes, clock, false)]
  }

  lemma {:induction false} MarkIs(m: Contents, layer: nat, experts: seq<nat>, clock: nat)
    ensures Mark(m, layer, experts, clock)
         == map k | k in m :: if k in Pins(layer, experts) then Use(m[k].bytes, clock, false) else m[k]
  {
    if experts != [] {
      MarkIs(m, layer, experts[..|experts| - 1], clock);
      PinsSnoc(layer, experts);
    }
  }

  lemma {:induction false} AdmitIs(m: Contents, layer: nat, experts: seq<nat>, bytes: nat, clock: nat)
    ensures Admit(m, layer, experts, bytes, clock)
         == map k | k in m.Keys + Pins(layer, experts) :: if k in m then m[k] else Use(bytes, clock, false)
  {
    if experts != [] {
      AdmitIs(m, layer, experts[..|experts| - 1], bytes, clock);
      PinsSnoc(layer, experts);
    }
  }

  lemma {:induction false} ServeIs(m: Contents, layer: nat, experts: seq<nat>, sizeOf: Key -> nat, clock: nat)
    ensures Serve(m, layer, experts, sizeOf, clock)
         == map k | k in m.Keys + Pins(layer, experts) ::
              if k in Pins(layer, experts) then Use(if k in m then m[k].bytes else sizeOf(k), clock, false) else m[k]
  {
    if experts != [] {
      ServeIs(m, layer, experts[..|experts| - 1], sizeOf, clock);
      PinsSnoc(layer, experts);
    }
  }

  lemma PinsSnoc(layer: nat, experts: seq<nat>)
    requires experts != []
    ensures Pins(layer, experts) == Pins(layer, experts[..|experts| - 1]) + {Key(layer, experts[|experts| - 1])}
  {
  }

  /** Eviction looks only at the bytes, and at what is not pinned. */
  lemma {:induction false} EvictionIgnoresPinned(m: Contents, n: Contents, pinned: set<Key>, required: nat,
                                                 capacity: nat)
    requires m.Keys == n.Keys
    requires forall k :: k in m ==> m[k].bytes == n[k].bytes && (k !in pinned ==> m[k] == n[k])
    ensures EvictFor(m, pinned, required, capacity).Keys == EvictFor(n, pinned, required, capacity).Keys
    decreases |m|
  {
    hide Victim, Bytes;
    BytesMonotone(m, n);
    BytesMonotone(n, m);
    SameVictim(m, n, pinned);
    VictimOf(m, pinned);
    assert |m| == |n| by {
      assert |m.Keys| == |n.Keys|;
    }
    match Victim(m, pinned)
    case None =>
    case Some(k) => EvictionIgnoresPinned(m - {k}, n - {k}, pinned, required, capacity);
  }

  lemma SameVictim(m: Contents, n: Contents, pinned: set<Key>)
    requires m.Keys == n.Keys && forall k :: k in m && k !in pinned ==> m[k] == n[k]
    ensures Victim(m, pinned) == Victim(n, pinned)
  {
    hide Victim;
    VictimOf(m, pinned);
    VictimOf(n, pinned);
    if Victim(m, pinned).Some? {
      var k := Victim(m, pinned).value;
      assert IsVictim(n, pinned, k);
      VictimIsUnique(n, pinned, k);
    } else if Victim(n, pinned).Some? {
      var k := Victim(n, pinned).value;
      assert IsVictim(m, pinned, k);
      VictimIsUnique(m, pinned, k);
    }
  }

  /** Main step: marking the hits first and admitting last comes to the same
      contents as evicting first and serving the whole route afterwards. */
  lemma MarkEvictAdmit(m: Contents, layer: nat, experts: seq<nat>, bytes: nat, clock: nat, required: nat, capacity: nat)
    ensures var pinned := Pins(layer, experts);
      Admit(EvictFor(Mark(m, layer, experts, clock), pinned, required, capacity), layer, experts, bytes, clock)
      == Serve(EvictFor(m, pinned, required, capacity), layer, experts, Uniform(bytes), clock)
  {
    hide EvictFor, Admit, Serve, Mark, Pins;
    var pinned := Pins(layer, experts);
    var marked := Mark(m, layer, experts, clock);
    MarkIs(m, layer, experts, clock);
    EvictionIgnoresPinned(m, marked, pinned, required, capacity);
    EvictionIs(m, pinned, required, capacity);
    EvictionIs(marked, pinned, required, capacity);
    var kept := EvictFor(m, pinned, required, capacity);
    var kept' := EvictFor(marked, pinned, required, capacity);
    AdmitIs(kept', layer, experts, bytes, clock);
    ServeIs(kept, layer, experts, Uniform(bytes), clock);
  }
}
