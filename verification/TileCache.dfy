/** The tile replay cache: an intrusive doubly linked LRU list threaded through
    a slab of entries, with a hash index into the slab. */
module TileCache {
  import opened Wrappers
  import opened LruModel

  datatype TileEntry = TileEntry(
    layer: nat,
    expert: nat,
    tileIndex: nat,
    bytes: nat,
    hits: nat,
    newer: Option<nat>,
    older: Option<nat>)
  {
    function Key(): TileKey {
      TileKey(layer, expert, tileIndex)
    }

    function Payload(): Tile {
      Tile(Key(), bytes, hits)
    }
  }

  // ------------------------------------------------------------------------
  // The list threaded through the slab

  ghost function NewerOf(order: seq<nat>, i: int): Option<nat>
    requires 0 <= i < |order|
  {
    if i == 0 then None else Some(order[i - 1])
  }

  ghost function OlderOf(order: seq<nat>, i: int): Option<nat>
    requires 0 <= i < |order|
  {
    if i == |order| - 1 then None else Some(order[i + 1])
  }

  ghost function FirstOf(order: seq<nat>): Option<nat> {
    if order == [] then None else Some(order[0])
  }

  ghost function LastOf(order: seq<nat>): Option<nat> {
    if order == [] then None else Some(order[|order| - 1])
  }

  /** The links of the `i`-th most recent slot point to its neighbours. */
  ghost predicate LinksAt(entries: seq<TileEntry>, order: seq<nat>, i: int) {
    && 0 <= i < |order|
    && order[i] < |entries|
    && entries[order[i]].newer == NewerOf(order, i)
    && entries[order[i]].older == OlderOf(order, i)
  }

  /** `order` lists, most recent first, the slab slots on the list; the links of
      those slots and the two ends say the same. */
  ghost predicate Linked(entries: seq<TileEntry>, order: seq<nat>, mru: Option<nat>, lru: Option<nat>) {
    && Distinct(order)
    && InSlab(entries, order)
    && (forall i :: 0 <= i < |order| ==> LinksAt(entries, order, i))
    && mru == FirstOf(order)
    && lru == LastOf(order)
  }

  ghost predicate InSlab(entries: seq<TileEntry>, order: seq<nat>) {
    forall i :: 0 <= i < |order| ==> order[i] < |entries|
  }

  /** The payloads of the listed slots, most recent first. */
  ghost function Listed(entries: seq<TileEntry>, order: seq<nat>): seq<Tile>
    requires InSlab(entries, order)
  {
    seq(|order|, i requires 0 <= i < |order| => entries[order[i]].Payload())
  }

  /** The list holds every slab slot exactly once. */
  ghost predicate Covers(order: seq<nat>, n: nat) {
    && |order| == n && Distinct(order)
    && (forall i :: 0 <= i < |order| ==> order[i] < n)
    && (forall slot: nat :: slot < n ==> slot in order)
  }

  /** The hash index is a bijection from the keys of the slab onto its slots. */
  ghost predicate IndexedBy(entries: seq<TileEntry>, index: map<TileKey, nat>) {
    && (forall i :: 0 <= i < |entries| ==> entries[i].Key() in index && index[entries[i].Key()] == i)
    && (forall k :: k in index ==> index[k] < |entries| && entries[index[k]].Key() == k)
  }

  /** Same entries up to their links. */
  ghost predicate SamePayloads(a: seq<TileEntry>, b: seq<TileEntry>) {
    |a| == |b| && forall i :: 0 <= i < |a| ==> a[i].Payload() == b[i].Payload()
  }

  lemma RemoveAtIndex<T>(s: seq<T>, p: nat, i: nat)
    requires p < |s| && i < |s| - 1
    ensures RemoveAt(s, p)[i] == if i < p then s[i] else s[i + 1]
  {
  }

  lemma DistinctRemoveAt(order: seq<nat>, p: nat)
    requires Distinct(order) && p < |order|
    ensures Distinct(RemoveAt(order, p))
  {
  }

  /** Taking the `p`-th slot out: its neighbours now point past it. */
  lemma LinkedAfterUnlink(before: seq<TileEntry>, after: seq<TileEntry>, order: seq<nat>, p: nat,
                          mru: Option<nat>, lru: Option<nat>, mru': Option<nat>, lru': Option<nat>)
    requires Linked(before, order, mru, lru) && p < |order| && |after| == |before|
    requires forall i :: 0 <= i < |order| && i != p ==> Bypassed(after, order, p, i)
    requires mru' == if p == 0 then OlderOf(order, p) else mru
    requires lru' == if p == |order| - 1 then NewerOf(order, p) else lru
    ensures Linked(after, RemoveAt(order, p), mru', lru')
  {
    var rest := RemoveAt(order, p);
    DistinctRemoveAt(order, p);
    forall i | 0 <= i < |rest| ensures LinksAt(after, rest, i) {
      assert Bypassed(after, order, p, if i < p then i else i + 1);
    }
  }

  ghost predicate Bypassed(after: seq<TileEntry>, order: seq<nat>, p: nat, i: int)
    requires p < |order|
  {
    && 0 <= i < |order| && order[i] < |after|
    && after[order[i]].newer == (if i == p + 1 then NewerOf(order, p) else NewerOf(order, i))
    && after[order[i]].older == (if i == p - 1 then OlderOf(order, p) else OlderOf(order, i))
  }

  /** Putting an unlisted slot in front: the former front points to it. */
  lemma LinkedAfterPush(before: seq<TileEntry>, after: seq<TileEntry>, order: seq<nat>, slot: nat,
                        mru: Option<nat>, lru: Option<nat>, lru': Option<nat>)
    requires Linked(before, order, mru, lru) && slot !in order && slot < |before| == |after|
    requires after[slot].newer == None && after[slot].older == mru
    requires forall i :: 0 <= i < |order| ==> Fronted(after, order, slot, i)
    requires lru' == if order == [] then Some(slot) else lru
    ensures Linked(after, [slot] + order, Some(slot), lru')
  {
    var longer := [slot] + order;
    forall i | 0 <= i < |longer| ensures LinksAt(after, longer, i) {
      if 0 < i {
        assert Fronted(after, order, slot, i - 1);
      }
    }
  }

  ghost predicate Fronted(after: seq<TileEntry>, order: seq<nat>, slot: nat, i: int) {
    && 0 <= i < |order| && order[i] < |after|
    && after[order[i]].newer == (if i == 0 then Some(slot) else NewerOf(order, i))
    && after[order[i]].older == OlderOf(order, i)
  }

  /** The list after slot `last`, its `q`-th most recent, moved to slot `slot`. */
  ghost function Renamed(order: seq<nat>, q: nat, slot: nat): seq<nat>
    requires q < |order|
  {
    order[q := slot]
  }

  ghost predicate MovedAt(after: seq<TileEntry>, order: seq<nat>, q: nat, slot: nat, i: int)
    requires q < |order|
  {
    && 0 <= i < |order| && Renamed(order, q, slot)[i] < |after|
    && after[Renamed(order, q, slot)[i]].newer == (if i == q + 1 then Some(slot) else NewerOf(order, i))
    && after[Renamed(order, q, slot)[i]].older == (if i == q - 1 then Some(slot) else OlderOf(order, i))
  }

  /** Moving a listed entry to a free slot: its neighbours now point to the new slot. */
  lemma LinkedAfterMove(after: seq<TileEntry>, order: seq<nat>, q: nat, slot: nat,
                        mru: Option<nat>, lru: Option<nat>, mru': Option<nat>, lru': Option<nat>)
    requires Distinct(order) && q < |order| && slot !in order
    requires mru == FirstOf(order) && lru == LastOf(order)
    requires forall i :: 0 <= i < |order| ==> MovedAt(after, order, q, slot, i)
    requires mru' == if q == 0 then Some(slot) else mru
    requires lru' == if q == |order| - 1 then Some(slot) else lru
    ensures Linked(after, Renamed(order, q, slot), mru', lru')
  {
    hide Distinct, LinksAt, MovedAt;
    DistinctRenamed(order, q, slot);
    MovedLinksAll(after, order, q, slot);
  }

  lemma MovedLinksAll(after: seq<TileEntry>, order: seq<nat>, q: nat, slot: nat)
    requires q < |order| && forall i :: 0 <= i < |order| ==> MovedAt(after, order, q, slot, i)
    ensures forall i :: 0 <= i < |order| ==> LinksAt(after, Renamed(order, q, slot), i)
    ensures InSlab(after, Renamed(order, q, slot))
  {
    hide LinksAt, MovedAt;
    forall i | 0 <= i < |order| ensures LinksAt(after, Renamed(order, q, slot), i)
      && Renamed(order, q, slot)[i] < |after| {
      MovedLinks(after, order, q, slot, i);
    }
  }

  lemma MovedLinks(after: seq<TileEntry>, order: seq<nat>, q: nat, slot: nat, i: int)
    requires q < |order| && MovedAt(after, order, q, slot, i)
    ensures LinksAt(after, Renamed(order, q, slot), i) && Renamed(order, q, slot)[i] < |after|
  {
  }

  lemma DistinctRenamed(order: seq<nat>, q: nat, slot: nat)
    requires Distinct(order) && q < |order| && slot !in order
    ensures Distinct(Renamed(order, q, slot))
  {
  }

  lemma InRemoveAt<T>(s: seq<T>, p: nat, x: T)
    requires p < |s| && x in s && x != s[p]
    ensures x in RemoveAt(s, p)
  {
    var i :| 0 <= i < |s| && s[i] == x;
    assert RemoveAt(s, p)[if i < p then i else i - 1] == x;
  }

  ghost predicate LastIsListed(order: seq<nat>, slot: nat, last: nat) {
    && slot !in order
    && (slot != last ==> last in order)
    && forall i :: 0 <= i < |order| ==> order[i] <= last
  }

  lemma CoversRemoveAt(order: seq<nat>, p: nat, n: nat)
    requires Covers(order, n) && p < |order|
    ensures LastIsListed(RemoveAt(order, p), order[p], n - 1)
    ensures order[p] == n - 1 ==> Covers(RemoveAt(order, p), n - 1)
  {
    var rest := RemoveAt(order, p);
    DistinctRemoveAt(order, p);
    forall x: nat | x < n && x != order[p] ensures x in rest {
      InRemoveAt(order, p, x);
    }
    forall i: nat | i < |rest| ensures rest[i] < n && rest[i] != order[p] {
      RemoveAtIndex(order, p, i);
    }
  }

  lemma CoversMove(order: seq<nat>, p: nat, q: nat, slot: nat, last: nat)
    requires Covers(order, last + 1) && p < |order| && order[p] == slot && slot < last
    requires q < |order| - 1 && RemoveAt(order, p)[q] == last
    ensures Covers(Renamed(RemoveAt(order, p), q, slot), last)
  {
    var rest := RemoveAt(order, p);
    var renamed := Renamed(rest, q, slot);
    CoversRemoveAt(order, p, last + 1);
    DistinctRemoveAt(order, p);
    forall x: nat | x < last ensures x in renamed {
      if x == slot {
        assert renamed[q] == x;
      } else {
        InRemoveAt(order, p, x);
        var i :| 0 <= i < |rest| && rest[i] == x;
        assert renamed[i] == x;
      }
    }
  }

  /** Dropping the unlisted last slot of the slab. */
  lemma LinkedAfterDrop(slab: seq<TileEntry>, order: seq<nat>, mru: Option<nat>, lru: Option<nat>)
    requires slab != [] && Linked(slab, order, mru, lru) && InSlab(slab[..|slab| - 1], order)
    ensures Linked(slab[..|slab| - 1], order, mru, lru)
    ensures Listed(slab[..|slab| - 1], order) == Listed(slab, order)
  {
    var shorter := slab[..|slab| - 1];
    forall i | 0 <= i < |order| ensures LinksAt(shorter, order, i) {
      assert LinksAt(slab, order, i);
    }
  }

  lemma MoveKeepsListed(slab: seq<TileEntry>, after: seq<TileEntry>, order: seq<nat>, q: nat, slot: nat)
    requires |slab| == |after| + 1 && slot < |after| && InSlab(slab, order) && Distinct(order)
    requires SamePayloads(after, slab[..|after|][slot := slab[|after|]])
    requires q < |order| && order[q] == |after| && slot !in order
    requires InSlab(after, Renamed(order, q, slot))
    ensures Listed(after, Renamed(order, q, slot)) == Listed(slab, order)
  {
    var moved := slab[..|after|][slot := slab[|after|]];
    forall i: nat | i < |order| ensures after[Renamed(order, q, slot)[i]].Payload() == slab[order[i]].Payload() {
      assert after[Renamed(order, q, slot)[i]].Payload() == moved[Renamed(order, q, slot)[i]].Payload();
    }
  }

  lemma IndexAfterSwapRemove(slab: seq<TileEntry>, after: seq<TileEntry>, index: map<TileKey, nat>,
                             index': map<TileKey, nat>, slot: nat)
    requires IndexedBy(slab, index) && slot < |slab| && |slab| == |after| + 1
    requires forall i :: 0 <= i < |after| ==> after[i].Key() == slab[if i == slot then |after| else i].Key()
    requires index' == if slot < |after| then (index - {slab[slot].Key()})[after[slot].Key() := slot]
                       else index - {slab[slot].Key()}
    ensures IndexedBy(after, index')
  {
    forall i: nat | i < |after| ensures after[i].Key() in index' && index'[after[i].Key()] == i {
      var j := if i == slot then |after| else i;
      assert index[slab[j].Key()] == j;
    }
  }

  lemma ListedRemoveAt(before: seq<TileEntry>, after: seq<TileEntry>, order: seq<nat>, p: nat)
    requires InSlab(before, order) && p < |order| && SamePayloads(after, before)
    requires InSlab(after, RemoveAt(order, p))
    ensures Listed(after, RemoveAt(order, p)) == RemoveAt(Listed(before, order), p)
  {
  }

  lemma HitKeepsLinked(before: seq<TileEntry>, after: seq<TileEntry>, order: seq<nat>, slot: nat,
                       mru: Option<nat>, lru: Option<nat>)
    requires Linked(before, order, mru, lru) && slot < |before|
    requires after == before[slot := before[slot].(hits := before[slot].hits + 1)]
    ensures Linked(after, order, mru, lru)
  {
    forall i | 0 <= i < |order| ensures LinksAt(after, order, i) {
      assert LinksAt(before, order, i);
    }
  }

  lemma AppendKeepsLinked(before: seq<TileEntry>, after: seq<TileEntry>, order: seq<nat>,
                          mru: Option<nat>, lru: Option<nat>)
    requires Linked(before, order, mru, lru) && before <= after
    ensures Linked(after, order, mru, lru)
  {
    forall i | 0 <= i < |order| ensures LinksAt(after, order, i) {
      assert LinksAt(before, order, i);
    }
  }

  lemma IndexAfterAppend(before: seq<TileEntry>, after: seq<TileEntry>, index: map<TileKey, nat>,
                         index': map<TileKey, nat>)
    requires IndexedBy(before, index) && |after| == |before| + 1 && before <= after
    requires after[|before|].Key() !in index && index' == index[after[|before|].Key() := |before|]
    ensures IndexedBy(after, index')
  {
  }

  lemma IndexIgnoresLinks(before: seq<TileEntry>, after: seq<TileEntry>, index: map<TileKey, nat>)
    requires IndexedBy(before, index) && |after| == |before|
    requires forall i :: 0 <= i < |before| ==> after[i].Key() == before[i].Key()
    ensures IndexedBy(after, index)
  {
  }

  lemma CoversAppend(order: seq<nat>)
    requires Covers(order, |order|)
    ensures |order| !in order && Covers([|order|] + order, |order| + 1)
  {
    assert forall slot: nat :: slot <= |order| && slot != |order| ==> slot in order;
  }

  lemma SamePayloadsSameKeys(a: seq<TileEntry>, b: seq<TileEntry>)
    requires SamePayloads(a, b)
    ensures forall i :: 0 <= i < |a| ==> a[i].Key() == b[i].Key()
  {
    assert forall i :: 0 <= i < |a| ==> a[i].Payload() == b[i].Payload();
  }

  lemma CoversFront(order: seq<nat>, p: nat)
    requires Covers(order, |order|) && p < |order|
    ensures order[p] !in RemoveAt(order, p)
    ensures Covers([order[p]] + RemoveAt(order, p), |order|)
  {
    var rest := RemoveAt(order, p);
    CoversRemoveAt(order, p, |order|);
    DistinctRemoveAt(order, p);
    forall slot: nat | slot < |order| ensures slot in [order[p]] + rest {
      if slot != order[p] {
        InRemoveAt(order, p, slot);
      }
    }
  }

  /** Payloads agree except for one more hit at `slot`. */
  ghost predicate HitAt(before: seq<TileEntry>, after: seq<TileEntry>, slot: nat, i: int) {
    && 0 <= i < |before| && i < |after|
    && after[i].Payload() == if i == slot then before[i].Payload().(hits := before[i].hits + 1) else before[i].Payload()
  }

  lemma FrontListed(before: seq<TileEntry>, after: seq<TileEntry>, order: seq<nat>, p: nat)
    requires Covers(order, |before|) && p < |order| && |after| == |before|
    requires forall i :: 0 <= i < |before| ==> HitAt(before, after, order[p], i)
    requires InSlab(after, [order[p]] + RemoveAt(order, p))
    ensures var tiles := Listed(before, order);
      Listed(after, [order[p]] + RemoveAt(order, p)) == [tiles[p].(hits := tiles[p].hits + 1)] + RemoveAt(tiles, p)
  {
    var rest := RemoveAt(order, p);
    assert HitAt(before, after, order[p], order[p]);
    forall i: nat | i < |rest| ensures after[rest[i]].Payload() == RemoveAt(Listed(before, order), p)[i] {
      RemoveAtIndex(order, p, i);
      assert HitAt(before, after, order[p], rest[i]);
    }
  }

  // ------------------------------------------------------------------------
  // Rewriting links

  function SetNewer(entries: seq<TileEntry>, at: Option<nat>, newer: Option<nat>): seq<TileEntry>
    requires at.Some? ==> at.value < |entries|
  {
    match at
    case Some(slot) => entries[slot := entries[slot].(newer := newer)]
    case None => entries
  }

  function SetOlder(entries: seq<TileEntry>, at: Option<nat>, older: Option<nat>): seq<TileEntry>
    requires at.Some? ==> at.value < |entries|
  {
    match at
    case Some(slot) => entries[slot := entries[slot].(older := older)]
    case None => entries
  }

  lemma LinkedInSlab(entries: seq<TileEntry>, order: seq<nat>, mru: Option<nat>, lru: Option<nat>)
    requires Linked(entries, order, mru, lru)
    ensures InSlab(entries, order)
  {
  }

  lemma InSlabAt(entries: seq<TileEntry>, order: seq<nat>, p: nat)
    requires InSlab(entries, order) && p < |order|
    ensures order[p] < |entries| && Listed(entries, order)[p] == entries[order[p]].Payload()
  {
  }

  /** The neighbours of a listed slot are in the slab. */
  lemma NeighboursInSlab(entries: seq<TileEntry>, order: seq<nat>, mru: Option<nat>, lru: Option<nat>, p: nat)
    requires Linked(entries, order, mru, lru) && p < |order|
    ensures order[p] < |entries|
    ensures entries[order[p]].newer == NewerOf(order, p) && entries[order[p]].older == OlderOf(order, p)
    ensures p > 0 ==> order[p - 1] < |entries|
    ensures p < |order| - 1 ==> order[p + 1] < |entries|
  {
    assert LinksAt(entries, order, p);
  }

  lemma EndsOf(entries: seq<TileEntry>, order: seq<nat>, mru: Option<nat>, lru: Option<nat>)
    requires Linked(entries, order, mru, lru)
    ensures mru == FirstOf(order) && lru == LastOf(order) && Distinct(order)
  {
  }

  /** Clearing a slot's links and pointing its neighbours past it. */
  lemma UnlinkBypasses(before: seq<TileEntry>, order: seq<nat>, mru: Option<nat>, lru: Option<nat>, p: nat)
      returns (after: seq<TileEntry>)
    requires Linked(before, order, mru, lru) && p < |order|
    ensures order[p] < |before|
    ensures NewerOf(order, p).Some? ==> NewerOf(order, p).value < |before|
    ensures OlderOf(order, p).Some? ==> OlderOf(order, p).value < |before|
    ensures var newer, older := NewerOf(order, p), OlderOf(order, p);
      var cleared := before[order[p] := before[order[p]].(newer := None, older := None)];
      after == SetNewer(SetOlder(cleared, newer, older), older, newer)
    ensures SamePayloads(after, before)
    ensures forall i :: 0 <= i < |order| && i != p ==> Bypassed(after, order, p, i)
  {
    hide Linked, LinksAt, Distinct, Bypassed;
    EndsOf(before, order, mru, lru);
    NeighboursInSlab(before, order, mru, lru, p);
    var newer, older := NewerOf(order, p), OlderOf(order, p);
    var cleared := before[order[p] := before[order[p]].(newer := None, older := None)];
    after := SetNewer(SetOlder(cleared, newer, older), older, newer);
    forall i: nat | i < |order| && i != p ensures Bypassed(after, order, p, i) {
      BypassesAt(before, after, order, mru, lru, p, i);
    }
  }

  lemma BypassesAt(before: seq<TileEntry>, after: seq<TileEntry>, order: seq<nat>, mru: Option<nat>, lru: Option<nat>,
                   p: nat, i: nat)
    requires Linked(before, order, mru, lru) && p < |order| && i < |order| && i != p && order[p] < |before|
    requires NewerOf(order, p).Some? ==> NewerOf(order, p).value < |before|
    requires OlderOf(order, p).Some? ==> OlderOf(order, p).value < |before|
    requires var newer, older := NewerOf(order, p), OlderOf(order, p);
      var cleared := before[order[p] := before[order[p]].(newer := None, older := None)];
      after == SetNewer(SetOlder(cleared, newer, older), older, newer)
    ensures Bypassed(after, order, p, i)
  {
    hide Linked, LinksAt, Distinct;
    EndsOf(before, order, mru, lru);
    NeighboursInSlab(before, order, mru, lru, i);
    OtherSlot(order, p, i);
    if p > 0 && i != p - 1 {
      OtherSlot(order, p - 1, i);
    }
    if p < |order| - 1 && i != p + 1 {
      OtherSlot(order, p + 1, i);
    }
  }

  lemma OtherSlot(order: seq<nat>, i: nat, j: nat)
    requires Distinct(order) && i < |order| && j < |order| && i != j
    ensures order[i] != order[j]
  {
  }

  /** Pointing the neighbours of the entry moved from the end of the slab to `slot` at its new place. */
  lemma RelinkMoves(slab: seq<TileEntry>, order: seq<nat>, mru: Option<nat>, lru: Option<nat>, q: nat, slot: nat)
      returns (after: seq<TileEntry>)
    requires slab != [] && Linked(slab, order, mru, lru) && slot < |slab| - 1 && slot !in order
    requires q < |order| && order[q] == |slab| - 1
    ensures slab[order[q]].newer == NewerOf(order, q) && slab[order[q]].older == OlderOf(order, q)
    ensures NewerOf(order, q).Some? ==> NewerOf(order, q).value < |slab| - 1
    ensures OlderOf(order, q).Some? ==> OlderOf(order, q).value < |slab| - 1
    ensures var moved := slab[..|slab| - 1][slot := slab[|slab| - 1]];
      && after == SetNewer(SetOlder(moved, NewerOf(order, q), Some(slot)), OlderOf(order, q), Some(slot))
      && SamePayloads(after, moved)
    ensures forall i :: 0 <= i < |order| ==> MovedAt(after, order, q, slot, i)
  {
    hide Linked, LinksAt, Distinct, MovedAt;
    EndsOf(slab, order, mru, lru);
    NeighboursInSlab(slab, order, mru, lru, q);
    if q > 0 {
      OtherSlot(order, q, q - 1);
    }
    if q < |order| - 1 {
      OtherSlot(order, q, q + 1);
    }
    var moved := slab[..|slab| - 1][slot := slab[|slab| - 1]];
    after := SetNewer(SetOlder(moved, NewerOf(order, q), Some(slot)), OlderOf(order, q), Some(slot));
    forall i: nat | i < |order| ensures MovedAt(after, order, q, slot, i) {
      MovesAt(slab, after, order, mru, lru, q, slot, i);
    }
  }

  lemma MovesAt(slab: seq<TileEntry>, after: seq<TileEntry>, order: seq<nat>, mru: Option<nat>, lru: Option<nat>,
                q: nat, slot: nat, i: nat)
    requires slab != [] && Linked(slab, order, mru, lru) && slot < |slab| - 1 && slot !in order
    requires q < |order| && order[q] == |slab| - 1 && i < |order|
    requires NewerOf(order, q).Some? ==> NewerOf(order, q).value < |slab| - 1
    requires OlderOf(order, q).Some? ==> OlderOf(order, q).value < |slab| - 1
    requires var moved := slab[..|slab| - 1][slot := slab[|slab| - 1]];
      after == SetNewer(SetOlder(moved, NewerOf(order, q), Some(slot)), OlderOf(order, q), Some(slot))
    ensures MovedAt(after, order, q, slot, i)
  {
    hide Linked, LinksAt, Distinct;
    EndsOf(slab, order, mru, lru);
    NeighboursInSlab(slab, order, mru, lru, i);
    assert order[i] in order;
    if i != q {
      OtherSlot(order, q, i);
    }
    if q > 0 {
      assert order[q - 1] in order;
      if i != q - 1 {
        OtherSlot(order, q - 1, i);
      }
    }
    if q < |order| - 1 {
      assert order[q + 1] in order;
      if i != q + 1 {
        OtherSlot(order, q + 1, i);
      }
    }
  }

  lemma CoversLength(order: seq<nat>, n: nat)
    requires Covers(order, n)
    ensures |order| == n
  {
  }

  lemma SameLength(a: seq<TileEntry>, b: seq<TileEntry>)
    requires SamePayloads(a, b)
    ensures |a| == |b|
  {
  }

  /** One more hit at `slot`, then only links change. */
  lemma OneMoreHit(before: seq<TileEntry>, unlinked: seq<TileEntry>, after: seq<TileEntry>, slot: nat)
    requires slot < |before| && SamePayloads(after, unlinked)
    requires SamePayloads(unlinked, before[slot := before[slot].(hits := before[slot].hits + 1)])
    ensures |after| == |before|
    ensures forall i :: 0 <= i < |before| ==> HitAt(before, after, slot, i)
    ensures forall i :: 0 <= i < |before| ==> after[i].Key() == before[i].Key()
  {
    var counted := before[slot := before[slot].(hits := before[slot].hits + 1)];
    forall i | 0 <= i < |before| ensures HitAt(before, after, slot, i) && after[i].Key() == before[i].Key() {
      assert counted[i].Payload() == unlinked[i].Payload() == after[i].Payload();
    }
  }

  lemma BytesCons(tile: Tile, tiles: seq<Tile>)
    ensures Bytes([tile] + tiles) == tile.bytes + Bytes(tiles)
  {
    assert ([tile] + tiles)[1..] == tiles;
  }

  class TileReplayCache {
    const capacity: nat
    var resident: nat
    var index: map<TileKey, nat>
    var entries: seq<TileEntry>
    var mru: Option<nat>
    var lru: Option<nat>
    var result: TileReplayResult

    ghost var order: seq<nat>
    ghost var evictedBytes: nat

    ghost predicate Valid()
      reads this
    {
      && Linked(entries, order, mru, lru)
      && Covers(order, |entries|)
      && IndexedBy(entries, index)
      && resident == Bytes(Listed(entries, order))
    }

    /** The resident tiles, most recently used first, and the counters. */
    ghost function State(): CacheState
      reads this
      requires Valid()
    {
      CacheState(Listed(entries, order), result, evictedBytes)
    }

    constructor (capacity: nat)
      ensures this.capacity == capacity && Valid() && State() == EMPTY
    {
      this.capacity := capacity;
      resident, index, entries, mru, lru := 0, map[], [], None, None;
      result := ZERO_RESULT;
      order, evictedBytes := [], 0;
    }

    /** Unlinks a slab slot, the `p`-th most recent, from the LRU list. */
    method Unlink(slot: nat, ghost p: nat)
      requires Linked(entries, order, mru, lru) && p < |order| && order[p] == slot
      modifies this`entries, this`mru, this`lru, this`order
      ensures order == RemoveAt(old(order), p)
      ensures Linked(entries, order, mru, lru)
      ensures SamePayloads(entries, old(entries))
    {
      hide Linked, LinksAt, Distinct, SamePayloads, Bypassed;
      NeighboursInSlab(entries, order, mru, lru, p);
      ghost var goal := UnlinkBypasses(entries, order, mru, lru, p);
      EndsOf(entries, order, mru, lru);
      var newer, older := entries[slot].newer, entries[slot].older;
      entries := entries[slot := entries[slot].(newer := None, older := None)];
      match newer {
        case Some(n) => entries := entries[n := entries[n].(older := older)];
        case None => mru := older;
      }
      match older {
        case Some(o) => entries := entries[o := entries[o].(newer := newer)];
        case None => lru := newer;
      }
      assert entries == goal;
      LinkedAfterUnlink(old(entries), entries, order, p, old(mru), old(lru), mru, lru);
      order := RemoveAt(order, p);
    }

    /** Pushes an unlisted slab slot to the most-recently-used end. */
    method PushMru(slot: nat)
      requires Linked(entries, order, mru, lru) && slot < |entries| && slot !in order
      modifies this`entries, this`mru, this`lru, this`order
      ensures order == [slot] + old(order)
      ensures Linked(entries, order, mru, lru)
      ensures SamePayloads(entries, old(entries))
    {
      entries := entries[slot := entries[slot].(newer := None, older := mru)];
      match mru {
        case Some(m) => entries := entries[m := entries[m].(newer := Some(slot))];
        case None => lru := Some(slot);
      }
      mru := Some(slot);
      forall i | 0 <= i < |order| ensures Fronted(entries, order, slot, i) {
        assert LinksAt(old(entries), order, i);
      }
      LinkedAfterPush(old(entries), entries, order, slot, old(mru), old(lru), lru);
      order := [slot] + order;
    }

    /** Drops the `p`-th most recent tile, in slab slot `slot`: unlink it, move the
        last slab entry into its slot, and relink that entry's neighbours. */
    method EvictSlot(slot: nat, ghost p: nat)
      requires Valid() && p < |order| && order[p] == slot
      modifies this
      ensures Valid() && State() == Evict(old(State()), p)
    {
      hide Linked, Covers, IndexedBy, SamePayloads, RemoveAt, InSlab;
      LinkedInSlab(entries, order, mru, lru);
      InSlabAt(entries, order, p);
      var entry := entries[slot];
      ghost var tiles, order0 := Listed(entries, order), order;
      Unlink(slot, p);
      LinkedInSlab(entries, order, mru, lru);
      ListedRemoveAt(old(entries), entries, order0, p);
      SamePayloadsSameKeys(entries, old(entries));
      SameLength(entries, old(entries));
      IndexIgnoresLinks(old(entries), entries, index);
      BytesRemoveAt(tiles, p);
      SwapRemove(slot, p, order0);
      LinkedInSlab(entries, order, mru, lru);
      resident := SaturatingSub(resident, entry.bytes);
      var waste := if entry.hits == 0 then entry.bytes else 0;
      result := result.(evictions := result.evictions + 1,
                        fetchedNeverReusedBytes := result.fetchedNeverReusedBytes + waste);
      evictedBytes := evictedBytes + entry.bytes;
    }

    /** Removes the unlisted slot `slot` from the slab by moving the last entry into it. */
    method SwapRemove(slot: nat, ghost p: nat, ghost order0: seq<nat>)
      requires Linked(entries, order, mru, lru) && IndexedBy(entries, index)
      requires Covers(order0, |entries|) && p < |order0| && order0[p] == slot && order == RemoveAt(order0, p)
      modifies this`entries, this`mru, this`lru, this`order, this`index
      ensures Linked(entries, order, mru, lru) && IndexedBy(entries, index)
      ensures Covers(order, |entries|)
      ensures Listed(entries, order) == old(Listed(entries, order))
    {
      hide LinksAt, Distinct, IndexedBy;
      var last := |entries| - 1;
      ghost var slab := entries;
      CoversRemoveAt(order0, p, last + 1);
      index := index - {entries[slot].Key()};
      entries := if slot < last then entries[..last][slot := entries[last]] else entries[..last];
      if slot < |entries| {
        index := index[entries[slot].Key() := slot];
        ghost var q := Relink(slot, slab);
        MoveKeepsListed(slab, entries, order, q, slot);
        CoversMove(order0, p, q, slot, last);
        order := Renamed(order, q, slot);
      } else {
        LinkedAfterDrop(slab, order, mru, lru);
      }
      IndexAfterSwapRemove(slab, entries, old(index), index, slot);
    }

    /** Points the neighbours of the entry moved into `slot` at its new place. */
    method Relink(slot: nat, ghost slab: seq<TileEntry>) returns (ghost q: nat)
      requires |slab| == |entries| + 1 && slot < |entries| && entries == slab[..|entries|][slot := slab[|entries|]]
      requires Linked(slab, order, mru, lru) && |entries| in order && slot !in order
      modifies this`entries, this`mru, this`lru
      ensures q < |order| && order[q] == |slab| - 1
      ensures Linked(entries, Renamed(order, q, slot), mru, lru)
      ensures SamePayloads(entries, slab[..|slab| - 1][slot := slab[|slab| - 1]])
    {
      hide Linked, LinksAt, SamePayloads, MovedAt, Distinct;
      q :| 0 <= q < |order| && order[q] == |entries|;
      EndsOf(slab, order, mru, lru);
      ghost var goal := RelinkMoves(slab, order, mru, lru, q, slot);
      var moved := entries[slot];
      match moved.newer {
        case Some(n) => entries := entries[n := entries[n].(older := Some(slot))];
        case None => mru := Some(slot);
      }
      match moved.older {
        case Some(o) => entries := entries[o := entries[o].(newer := Some(slot))];
        case None => lru := Some(slot);
      }
      assert entries == goal;
      LinkedAfterMove(entries, order, q, slot, old(mru), old(lru), mru, lru);
    }

    /** Walks from the least recent end towards the most recent one, skipping
        pinned tiles. */
    method FindVictim(pinned: seq<TileKey>) returns (victim: Option<nat>, ghost p: nat)
      requires Valid()
      ensures var spec := LastUnpinned(State().tiles, pinned);
        if victim.None? then spec.None? else spec == Some(p) && p < |order| && order[p] == victim.value
    {
      hide Distinct, IndexedBy;
      var cursor := lru;
      ghost var rest := |order|;
      ghost var tiles := Listed(entries, order);
      assert tiles[..rest] == tiles;
      while cursor.Some?
        invariant 0 <= rest <= |order| == |tiles|
        invariant cursor == if rest == 0 then None else Some(order[rest - 1])
        invariant LastUnpinned(tiles[..rest], pinned) == LastUnpinned(tiles, pinned)
        decreases rest
      {
        var slot := cursor.value;
        assert LinksAt(entries, order, rest - 1);
        assert tiles[rest - 1] == entries[slot].Payload();
        assert tiles[..rest][..rest - 1] == tiles[..rest - 1];
        if entries[slot].Key() !in pinned {
          return Some(slot), rest - 1;
        }
        cursor := entries[slot].newer;
        rest := rest - 1;
      }
      return None, 0;
    }

    /** The index answers residency as the recency list does. */
    lemma IndexMeansResident(key: TileKey)
      requires Valid()
      ensures key in index <==> Holds(State().tiles, key)
    {
      if key in index {
        assert index[key] in order;
        var p :| 0 <= p < |order| && order[p] == index[key];
        assert State().tiles[p].key == key;
      }
      if Holds(State().tiles, key) {
        var i :| 0 <= i < |State().tiles| && State().tiles[i].key == key;
        assert entries[order[i]].Key() == key;
      }
    }

    /** A resident tile's slot sits at the tile's place in the recency list. */
    lemma SlotPosition(key: TileKey)
      requires Valid() && key in index
      ensures Holds(State().tiles, key)
      ensures var p := PositionOf(State().tiles, key); p < |order| && order[p] == index[key]
    {
      IndexMeansResident(key);
      var p := PositionOf(State().tiles, key);
      assert entries[order[p]].Key() == key;
    }

    /** Evicts least recently used unpinned tiles until `missing` more bytes fit. */
    method MakeRoomFor(missing: nat, pinned: seq<TileKey>) returns (ok: bool)
      requires Valid()
      modifies this
      ensures Valid()
      ensures MakeRoom(capacity, old(State()), pinned, missing) == if ok then Routed(State()) else TooSmall(State())
    {
      ghost var goal := MakeRoom(capacity, State(), pinned, missing);
      while resident + missing > capacity
        invariant Valid() && MakeRoom(capacity, State(), pinned, missing) == goal
        decreases |entries|
      {
        var victim, p := FindVictim(pinned);
        if victim.None? {
          return false;
        }
        ghost var before := State();
        EvictSlot(victim.value, p);
        assert |State().tiles| == |before.tiles| - 1;
      }
      return true;
    }

    /** A resident tile: one more hit, and to the front. */
    method TouchResident(slot: nat, ghost p: nat)
      requires Valid() && slot < |entries| && p < |order| && order[p] == slot
      modifies this`entries, this`mru, this`lru, this`order
      ensures Valid()
      ensures var tile := old(State()).tiles[p];
        State() == old(State()).(tiles := [tile.(hits := tile.hits + 1)] + RemoveAt(old(State()).tiles, p))
    {
      hide Linked, Covers, IndexedBy, SamePayloads, RemoveAt, InSlab, HitAt, Bytes;
      LinkedInSlab(entries, order, mru, lru);
      ghost var tiles, order0 := Listed(entries, order), order;
      CoversLength(order, |entries|);
      InSlabAt(entries, order, p);
      entries := entries[slot := entries[slot].(hits := entries[slot].hits + 1)];
      HitKeepsLinked(old(entries), entries, order, slot, mru, lru);
      Unlink(slot, p);
      ghost var unlinked := entries;
      CoversFront(order0, p);
      SameLength(unlinked, old(entries)[slot := old(entries)[slot].(hits := old(entries)[slot].hits + 1)]);
      PushMru(slot);
      LinkedInSlab(entries, order, mru, lru);
      OneMoreHit(old(entries), unlinked, entries, slot);
      FrontListed(old(entries), entries, order0, p);
      IndexIgnoresLinks(old(entries), entries, index);
      BytesRemoveAt(tiles, p);
      BytesCons(tiles[p].(hits := tiles[p].hits + 1), RemoveAt(tiles, p));
    }

    /** Appends a slab entry for a tile that is not resident, most recent of all. */
    method AppendEntry(entry: TileEntry)
      requires Valid() && entry.Key() !in index
      modifies this`entries, this`mru, this`lru, this`order, this`index, this`resident
      ensures Valid()
      ensures Listed(entries, order) == [entry.Payload()] + old(Listed(entries, order))
    {
      hide LinksAt, Distinct, IndexedBy;
      var slot := |entries|;
      ghost var tiles := Listed(entries, order);
      entries := entries + [entry];
      AppendKeepsLinked(old(entries), entries, order, mru, lru);
      index := index[entry.Key() := slot];
      IndexAfterAppend(old(entries), entries, old(index), index);
      ghost var appended := entries;
      CoversAppend(order);
      PushMru(slot);
      SamePayloadsSameKeys(entries, appended);
      IndexIgnoresLinks(appended, entries, index);
      assert Listed(entries, order) == [entry.Payload()] + tiles;
      assert Listed(entries, order)[1..] == tiles;
      resident := resident + entry.bytes;
    }

    /** A missing tile: fetched, counted and put in front. */
    method AdmitTile(layer: nat, expert: nat, tileIndex: nat, bytes: nat)
      requires Valid() && TileKey(layer, expert, tileIndex) !in index
      modifies this
      ensures Valid()
      ensures State() == Touch(old(State()), Demand(TileKey(layer, expert, tileIndex), bytes))
    {
      IndexMeansResident(TileKey(layer, expert, tileIndex));
      AppendEntry(TileEntry(layer, expert, tileIndex, bytes, 0, None, None));
      var peak := if resident > result.peakResidentBytes then resident else result.peakResidentBytes;
      result := result.(rawMissBytes := result.rawMissBytes + bytes,
                        readSyscalls := result.readSyscalls + 1,
                        overreadBytes := result.overreadBytes + ((bytes + 4095) / 4096 * 4096 - bytes),
                        peakResidentBytes := peak);
    }

    method TouchTile(layer: nat, expert: nat, tileIndex: nat, bytes: nat)
      requires Valid()
      modifies this
      ensures Valid()
      ensures State() == Touch(old(State()), Demand(TileKey(layer, expert, tileIndex), bytes))
    {
      var key := TileKey(layer, expert, tileIndex);
      if key in index {
        SlotPosition(key);
        TouchResident(index[key], PositionOf(State().tiles, key));
      } else {
        AdmitTile(layer, expert, tileIndex, bytes);
      }
    }

    /** Counts every demand as a hit or a miss and adds up the missing bytes. */
    method CountDemands(layer: nat, experts: seq<nat>, sizes: seq<nat>) returns (missing: nat)
      requires Valid()
      modifies this`result
      ensures Valid()
      ensures var demands, before := Demands(layer, experts, sizes), old(State());
        && missing == MissingBytes(before.tiles, demands)
        && State() == before.(result := Counted(before.result, before.tiles, demands))
    {
      hide Linked, Covers, IndexedBy, Holds, Listed;
      missing := 0;
      ghost var tiles, r := State().tiles, result;
      for i := 0 to |experts|
        invariant Valid() && State().tiles == tiles
        invariant result == Counted(r, tiles, Demands(layer, experts[..i], sizes))
        invariant missing == MissingBytes(tiles, Demands(layer, experts[..i], sizes))
      {
        ghost var done, here := Demands(layer, experts[..i], sizes), TilesOf(layer, experts[i], sizes);
        PrefixesStart(done, here);
        for t := 0 to |sizes|
          invariant Valid() && State().tiles == tiles
          invariant result == Counted(r, tiles, done + here[..t])
          invariant missing == MissingBytes(tiles, done + here[..t])
        {
          var key := TileKey(layer, experts[i], t);
          IndexMeansResident(key);
          PrefixesSnoc(done, here, t);
          result := result.(tileDemands := result.tileDemands + 1);
          if key in index {
            result := result.(tileHits := result.tileHits + 1);
          } else {
            result := result.(tileMisses := result.tileMisses + 1);
            missing := missing + sizes[t];
          }
        }
        DemandsSnoc(layer, experts, sizes, i);
      }
      assert experts[..|experts|] == experts;
    }

    /** Serves every demand, in route order. */
    method TouchDemands(layer: nat, experts: seq<nat>, sizes: seq<nat>)
      requires Valid()
      modifies this
      ensures Valid() && State() == TouchAll(old(State()), Demands(layer, experts, sizes))
    {
      hide Valid, TouchAll, Demands, TilesOf;
      ghost var st := State();
      NoDemands(layer, experts, sizes, st);
      for i := 0 to |experts|
        invariant Valid() && State() == TouchAll(st, Demands(layer, experts[..i], sizes))
      {
        TouchExpert(layer, experts[i], sizes, st, Demands(layer, experts[..i], sizes));
        DemandsSnoc(layer, experts, sizes, i);
      }
      assert experts[..|experts|] == experts;
    }

    /** Serves the tiles of one expert, after `done`. */
    method TouchExpert(layer: nat, expert: nat, sizes: seq<nat>, ghost st: CacheState, ghost done: seq<Demand>)
      requires Valid() && State() == TouchAll(st, done)
      modifies this
      ensures Valid() && State() == TouchAll(st, done + TilesOf(layer, expert, sizes))
    {
      hide Valid, Touch;
      ghost var here := TilesOf(layer, expert, sizes);
      PrefixesStart(done, here);
      for t := 0 to |sizes|
        invariant Valid() && State() == TouchAll(st, done + here[..t])
      {
        PrefixesSnoc(done, here, t);
        TouchTile(layer, expert, t, sizes[t]);
      }
      assert here[..|sizes|] == here;
    }

    /** The keys of a route, which eviction must leave alone. */
    method PinnedKeys(layer: nat, experts: seq<nat>, sizes: seq<nat>) returns (pinned: seq<TileKey>)
      ensures pinned == Keys(Demands(layer, experts, sizes))
    {
      pinned := [];
      for i := 0 to |experts|
        invariant pinned == Keys(Demands(layer, experts[..i], sizes))
      {
        ghost var here := TilesOf(layer, experts[i], sizes);
        ghost var done := pinned;
        for t := 0 to |sizes|
          invariant pinned == done + Keys(here[..t])
        {
          pinned := pinned + [TileKey(layer, experts[i], t)];
        }
        DemandsSnoc(layer, experts, sizes, i);
        assert here[..|sizes|] == here;
      }
      assert experts[..|experts|] == experts;
    }

    /** One exact route: count, make room, then serve. A route that cannot fit
        reports so after evicting everything it could. */
    method RouteExact(layer: nat, experts: seq<nat>, sizes: seq<nat>) returns (ok: bool)
      requires Valid()
      modifies this
      ensures Valid()
      ensures Route(capacity, old(State()), Demands(layer, experts, sizes))
           == if ok then Routed(State()) else TooSmall(State())
    {
      var pinned := PinnedKeys(layer, experts, sizes);
      var missing := CountDemands(layer, experts, sizes);
      ok := MakeRoomFor(missing, pinned);
      if ok {
        TouchDemands(layer, experts, sizes);
      }
    }
  }

  lemma NoDemands(layer: nat, experts: seq<nat>, sizes: seq<nat>, st: CacheState)
    ensures TouchAll(st, Demands(layer, experts[..0], sizes)) == st
  {
  }

  lemma PrefixesStart(done: seq<Demand>, here: seq<Demand>)
    ensures done + here[..0] == done
  {
  }

  lemma PrefixesSnoc(done: seq<Demand>, here: seq<Demand>, t: nat)
    requires t < |here|
    ensures var longer := done + here[..t + 1];
      longer[..|longer| - 1] == done + here[..t] && longer[|longer| - 1] == here[t]
  {
  }

  lemma DemandsSnoc(layer: nat, experts: seq<nat>, sizes: seq<nat>, i: nat)
    requires i < |experts|
    ensures var here := TilesOf(layer, experts[i], sizes);
      && Demands(layer, experts[..i + 1], sizes) == Demands(layer, experts[..i], sizes) + here
      && here[..|sizes|] == here
  {
    assert experts[..i + 1][..i] == experts[..i];
  }
}
