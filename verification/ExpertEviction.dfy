/** Which entries the expert cache evicts, and where `swap_remove` leaves the
    others: what decides whether an active plan's pins survive. */
module ExpertEviction {
  import opened Wrappers
  import opened ExpertModel

  /** The policy's keep-value of an entry at a clock. */
  type Utility = (CachedExpert, nat) -> real

  /** Eviction order: probation entries first, then lowest utility, then least
      recent, then layer and expert. */
  predicate Before(utility: Utility, clock: nat, a: CachedExpert, b: CachedExpert) {
    if a.probation != b.probation then a.probation
    else if utility(a, clock) != utility(b, clock) then utility(a, clock) < utility(b, clock)
    else if a.lastUsed != b.lastUsed then a.lastUsed < b.lastUsed
    else if a.layer != b.layer then a.layer < b.layer
    else a.expert < b.expert
  }

  lemma BeforeTransitive(utility: Utility, clock: nat, a: CachedExpert, b: CachedExpert, c: CachedExpert)
    requires Before(utility, clock, a, b)
    ensures !Before(utility, clock, c, b) ==> !Before(utility, clock, c, a)
    ensures !Before(utility, clock, c, b) ==> Before(utility, clock, a, c)
    ensures Before(utility, clock, b, c) ==> Before(utility, clock, a, c)
  {
  }

  lemma NotBeforeItself(utility: Utility, clock: nat, a: CachedExpert)
    ensures !Before(utility, clock, a, a)
  {
  }

  predicate Evictable(e: CachedExpert, layer: nat, experts: seq<nat>) {
    e.pinCount == 0 && (e.layer != layer || e.expert !in experts)
  }

  /** The victim: evictable, nothing evictable goes before it, and of equals the
      first. */
  ghost predicate Coldest(utility: Utility, clock: nat, entries: seq<CachedExpert>, layer: nat, experts: seq<nat>,
                          i: nat)
  {
    && i < |entries| && Evictable(entries[i], layer, experts)
    && (forall j :: 0 <= j < |entries| && Evictable(entries[j], layer, experts) ==>
          !Before(utility, clock, entries[j], entries[i]))
    && forall j :: 0 <= j < i && Evictable(entries[j], layer, experts) ==>
       Before(utility, clock, entries[i], entries[j])
  }

  /** The best of the first `n` entries. */
  ghost predicate ColdestSoFar(utility: Utility, clock: nat, entries: seq<CachedExpert>, n: nat, layer: nat,
                               experts: seq<nat>, best: Option<nat>)
    requires n <= |entries|
  {
    match best
    case None => forall j :: 0 <= j < n ==> !Evictable(entries[j], layer, experts)
    case Some(b) =>
      && b < n && Evictable(entries[b], layer, experts)
      && (forall j :: 0 <= j < n && Evictable(entries[j], layer, experts) ==>
            !Before(utility, clock, entries[j], entries[b]))
      && forall j :: 0 <= j < b && Evictable(entries[j], layer, experts) ==>
         Before(utility, clock, entries[b], entries[j])
  }

  lemma ColderThanSoFar(utility: Utility, clock: nat, entries: seq<CachedExpert>, i: nat, layer: nat,
                        experts: seq<nat>, b: nat)
    requires i < |entries| && ColdestSoFar(utility, clock, entries, i, layer, experts, Some(b))
    requires Evictable(entries[i], layer, experts) && Before(utility, clock, entries[i], entries[b])
    ensures ColdestSoFar(utility, clock, entries, i + 1, layer, experts, Some(i))
  {
    hide Before;
    forall j | 0 <= j < i && Evictable(entries[j], layer, experts)
      ensures !Before(utility, clock, entries[j], entries[i]) && Before(utility, clock, entries[i], entries[j])
    {
      BeforeTransitive(utility, clock, entries[i], entries[b], entries[j]);
    }
    NotBeforeItself(utility, clock, entries[i]);
  }

  ghost function ColdestSlot(utility: Utility, clock: nat, entries: seq<CachedExpert>, layer: nat,
                             experts: seq<nat>): (r: Option<nat>)
    ensures r.Some? ==> r.value < |entries| && Coldest(utility, clock, entries, layer, experts, r.value)
  {
    if exists v: nat :: Coldest(utility, clock, entries, layer, experts, v) then
      var v: nat :| Coldest(utility, clock, entries, layer, experts, v);
      Some(v)
    else None
  }

  lemma ColdestIs(utility: Utility, clock: nat, entries: seq<CachedExpert>, layer: nat, experts: seq<nat>, v: nat)
    requires Coldest(utility, clock, entries, layer, experts, v)
    ensures ColdestSlot(utility, clock, entries, layer, experts) == Some(v)
  {
    hide Before, Evictable;
  }

  lemma NothingIsColdest(utility: Utility, clock: nat, entries: seq<CachedExpert>, layer: nat, experts: seq<nat>)
    requires forall j :: 0 <= j < |entries| ==> !Evictable(entries[j], layer, experts)
    ensures ColdestSlot(utility, clock, entries, layer, experts) == None
  {
    hide Before, Evictable;
  }

  /** The slots evicted, one after another, until `required` more bytes fit or
      nothing is evictable. */
  ghost function Victims(utility: Utility, clock: nat, entries: seq<CachedExpert>, required: nat, capacity: nat,
                         layer: nat, experts: seq<nat>): seq<nat>
    decreases |entries|
  {
    if Weigh(entries, BytesOf) + required <= capacity then []
    else
      match ColdestSlot(utility, clock, entries, layer, experts)
      case None => []
      case Some(v) => [v] + Victims(utility, clock, SwapRemove(entries, v), required, capacity, layer, experts)
  }

  /** Slots that exist when their turn comes. */
  predicate Slots(n: nat, victims: seq<nat>)
    decreases |victims|
  {
    victims == [] || (victims[0] < n && Slots(n - 1, victims[1..]))
  }

  function RemoveAll<T>(s: seq<T>, victims: seq<nat>): seq<T>
    requires Slots(|s|, victims)
    decreases |victims|
  {
    if victims == [] then s else RemoveAll(SwapRemove(s, victims[0]), victims[1..])
  }

  /** Where the entry at `j` of `n` ends up, if it is not evicted. */
  function SlotAfter(n: nat, victims: seq<nat>, j: nat): Option<nat>
    requires Slots(n, victims) && j < n
    decreases |victims|
  {
    if victims == [] then Some(j)
    else if victims[0] == j then None
    else SlotAfter(n - 1, victims[1..], if j == n - 1 then victims[0] else j)
  }

  lemma {:induction false} VictimsAreSlots(utility: Utility, clock: nat, entries: seq<CachedExpert>, required: nat,
                                           capacity: nat, layer: nat, experts: seq<nat>)
    ensures Slots(|entries|, Victims(utility, clock, entries, required, capacity, layer, experts))
    decreases |entries|
  {
    hide Coldest, Weigh;
    if Weigh(entries, BytesOf) + required > capacity {
      match ColdestSlot(utility, clock, entries, layer, experts)
      case None =>
      case Some(v) =>
        ColdestInRange(utility, clock, entries, layer, experts, v);
        VictimsAreSlots(utility, clock, SwapRemove(entries, v), required, capacity, layer, experts);
    }
  }

  lemma ColdestInRange(utility: Utility, clock: nat, entries: seq<CachedExpert>, layer: nat, experts: seq<nat>, v: nat)
    requires Coldest(utility, clock, entries, layer, experts, v)
    ensures v < |entries| && entries[v].pinCount == 0
  {
  }

  lemma {:induction false} SlotHolds<T>(s: seq<T>, victims: seq<nat>, j: nat)
    requires Slots(|s|, victims) && j < |s|
    ensures |RemoveAll(s, victims)| == |s| - |victims|
    ensures var f := SlotAfter(|s|, victims, j); f.Some? ==>
      (f.value < |RemoveAll(s, victims)| && RemoveAll(s, victims)[f.value] == s[j])
    decreases |victims|
  {
    if victims != [] {
      if |s| > 1 {
        var j' := if j == |s| - 1 then victims[0] else j;
        SlotHolds(SwapRemove(s, victims[0]), victims[1..], if j' < |s| - 1 then j' else 0);
      } else {
        assert victims[1..] == [];
      }
    }
  }

  lemma {:induction false} SlotsDiffer(n: nat, victims: seq<nat>, j: nat, k: nat)
    requires Slots(n, victims) && j < n && k < n && j != k
    ensures var f, g := SlotAfter(n, victims, j), SlotAfter(n, victims, k); f.Some? && g.Some? ==> f != g
    decreases |victims|
  {
    if victims != [] && j != victims[0] && k != victims[0] {
      SlotsDiffer(n - 1, victims[1..], if j == n - 1 then victims[0] else j, if k == n - 1 then victims[0] else k);
    }
  }

  /** Every slot left over is some survivor's. */
  lemma {:induction false} SlotComesFrom(n: nat, victims: seq<nat>, f: nat) returns (j: nat)
    requires Slots(n, victims) && f + |victims| < n
    ensures j < n && SlotAfter(n, victims, j) == Some(f)
    decreases |victims|
  {
    if victims == [] {
      j := f;
    } else {
      var j' := SlotComesFrom(n - 1, victims[1..], f);
      j := if j' == victims[0] then n - 1 else j';
    }
  }

  /** Only the last entries move: as many of them as are evicted. */
  lemma {:induction false} OnlyTheTailMoves(n: nat, victims: seq<nat>, j: nat)
    requires Slots(n, victims) && j + |victims| < n
    ensures SlotAfter(n, victims, j) == None || SlotAfter(n, victims, j) == Some(j)
    decreases |victims|
  {
    if victims != [] && j != victims[0] {
      OnlyTheTailMoves(n - 1, victims[1..], j);
    }
  }

  // ------------------------------------------------------------------------
  // Pins

  /** Pinned entries survive. */
  ghost predicate Spares(entries: seq<CachedExpert>, victims: seq<nat>)
    requires Slots(|entries|, victims)
  {
    forall j :: 0 <= j < |entries| && entries[j].pinCount > 0 ==> SlotAfter(|entries|, victims, j).Some?
  }

  lemma {:induction false} VictimsSparePinned(utility: Utility, clock: nat, entries: seq<CachedExpert>, required: nat,
                                              capacity: nat, layer: nat, experts: seq<nat>)
    ensures Slots(|entries|, Victims(utility, clock, entries, required, capacity, layer, experts))
    ensures Spares(entries, Victims(utility, clock, entries, required, capacity, layer, experts))
    decreases |entries|
  {
    hide Coldest, Weigh;
    VictimsAreSlots(utility, clock, entries, required, capacity, layer, experts);
    if Weigh(entries, BytesOf) + required > capacity {
      match ColdestSlot(utility, clock, entries, layer, experts)
      case None =>
      case Some(v) =>
        ColdestInRange(utility, clock, entries, layer, experts, v);
        var rest := SwapRemove(entries, v);
        VictimsSparePinned(utility, clock, rest, required, capacity, layer, experts);
        forall j | 0 <= j < |entries| && entries[j].pinCount > 0
          ensures SlotAfter(|entries|, Victims(utility, clock, entries, required, capacity, layer, experts), j).Some?
        {
          assert rest[if j == |entries| - 1 then v else j] == entries[j];
        }
    }
  }

  /** Entry `c`, an unpinned copy of the pinned `i`, ends up in front of it. */
  ghost predicate Misplaces(entries: seq<CachedExpert>, victims: seq<nat>, i: nat, c: nat)
    requires Slots(|entries|, victims)
  {
    && i < |entries| && c < |entries|
    && entries[i].pinCount > 0 && entries[c].pinCount == 0 && entries[c].Key() == entries[i].Key()
    && var at, copy := SlotAfter(|entries|, victims, i), SlotAfter(|entries|, victims, c);
       at.Some? && copy.Some? && copy.value < at.value
  }

  ghost predicate PinsMisplaced(entries: seq<CachedExpert>, victims: seq<nat>)
    requires Slots(|entries|, victims)
  {
    exists i: nat, c: nat :: Misplaces(entries, victims, i, c)
  }

  /** Main result: after any run of evictions the plan's pins are in order if and
      only if no surviving unpinned copy of a pinned expert has come to stand in
      front of it. */
  lemma EvictionsKeepPinsIff(entries: seq<CachedExpert>, victims: seq<nat>, layer: nat, ids: seq<nat>)
    requires PinnedExactly(entries, layer, ids) && Slots(|entries|, victims) && Spares(entries, victims)
    ensures PinnedExactly(RemoveAll(entries, victims), layer, ids) <==> !PinsMisplaced(entries, victims)
  {
    hide SlotAfter, RemoveAll, Slots, PinnedAt, Misplaces;
    if i: nat, c: nat :| Misplaces(entries, victims, i, c) {
      MisplacedBreaks(entries, victims, layer, ids, i, c);
    } else {
      forall id | id in ids ensures First(RemoveAll(entries, victims), (layer, id)).Some? {
        StaysResident(entries, victims, layer, ids, id);
      }
      forall f | 0 <= f < |RemoveAll(entries, victims)| ensures PinnedAt(RemoveAll(entries, victims), layer, ids, f) {
        PinAfterEvictions(entries, victims, layer, ids, f);
      }
    }
  }

  lemma PinnedIsFirst(entries: seq<CachedExpert>, layer: nat, ids: seq<nat>, i: nat)
    requires PinnedExactly(entries, layer, ids) && i < |entries| && entries[i].pinCount > 0
    ensures entries[i].Key() == (layer, entries[i].expert) && entries[i].expert in ids
    ensures First(entries, entries[i].Key()) == Some(i)
    ensures forall c :: 0 <= c < |entries| && entries[c].Key() == entries[i].Key() ==> i <= c
  {
    hide First;
    assert PinnedAt(entries, layer, ids, i);
    FirstIs(entries, (layer, entries[i].expert));
  }

  lemma NotMisplaced(entries: seq<CachedExpert>, victims: seq<nat>, i: nat, c: nat)
    requires Slots(|entries|, victims) && !PinsMisplaced(entries, victims)
    ensures !Misplaces(entries, victims, i, c)
  {
    hide Misplaces;
  }

  lemma MisplacedBreaks(entries: seq<CachedExpert>, victims: seq<nat>, layer: nat, ids: seq<nat>, i: nat, c: nat)
    requires PinnedExactly(entries, layer, ids) && Slots(|entries|, victims) && Misplaces(entries, victims, i, c)
    ensures !PinnedExactly(RemoveAll(entries, victims), layer, ids)
  {
    hide SlotAfter, RemoveAll, Slots, First;
    var left := RemoveAll(entries, victims);
    SlotHolds(entries, victims, i);
    SlotHolds(entries, victims, c);
    FirstIs(left, entries[i].Key());
    var at := SlotAfter(|entries|, victims, i).value;
    assert left[at] == entries[i] && left[SlotAfter(|entries|, victims, c).value] == entries[c];
    PinnedIsFirst(entries, layer, ids, i);
    assert !PinnedAt(left, layer, ids, at);
  }

  lemma StaysResident(entries: seq<CachedExpert>, victims: seq<nat>, layer: nat, ids: seq<nat>, id: nat)
    requires PinnedExactly(entries, layer, ids) && Slots(|entries|, victims) && Spares(entries, victims) && id in ids
    ensures First(RemoveAll(entries, victims), (layer, id)).Some?
  {
    hide SlotAfter, RemoveAll, Slots, First;
    FirstIs(entries, (layer, id));
    var p := First(entries, (layer, id)).value;
    assert PinnedAt(entries, layer, ids, p);
    SlotHolds(entries, victims, p);
    FirstIs(RemoveAll(entries, victims), (layer, id));
  }

  lemma PinAfterEvictions(entries: seq<CachedExpert>, victims: seq<nat>, layer: nat, ids: seq<nat>, f: nat)
    requires PinnedExactly(entries, layer, ids) && Slots(|entries|, victims) && Spares(entries, victims)
    requires !PinsMisplaced(entries, victims) && f < |RemoveAll(entries, victims)|
    ensures PinnedAt(RemoveAll(entries, victims), layer, ids, f)
  {
    hide SlotAfter, RemoveAll, Slots, First;
    var left := RemoveAll(entries, victims);
    RemovesThatMany(entries, victims);
    var j := SlotComesFrom(|entries|, victims, f);
    SlotHolds(entries, victims, j);
    assert PinnedAt(entries, layer, ids, j);
    var key := (layer, left[f].expert);
    FirstIs(left, key);
    FirstIs(entries, key);
    if left[f].expert in ids {
      var i := First(entries, key).value;
      assert PinnedAt(entries, layer, ids, i);
      SlotHolds(entries, victims, i);
      var g := First(left, key).value;
      var c := SlotComesFrom(|entries|, victims, g);
      SlotHolds(entries, victims, c);
      assert PinnedAt(entries, layer, ids, c);
      NotMisplaced(entries, victims, i, c);
      if c != i {
        SlotsDiffer(|entries|, victims, i, c);
      }
    }
  }

  lemma RemovesThatMany<T>(s: seq<T>, victims: seq<nat>)
    requires Slots(|s|, victims)
    ensures |RemoveAll(s, victims)| == |s| - |victims|
  {
    if s != [] {
      SlotHolds(s, victims, 0);
    }
  }

  /** No unpinned entry of an expert that is also pinned. */
  predicate NoCopies(entries: seq<CachedExpert>) {
    forall i, c :: 0 <= i < |entries| && 0 <= c < |entries| && entries[i].pinCount > 0 && entries[c].pinCount == 0 ==>
      entries[c].Key() != entries[i].Key()
  }

  /** What a caller can look for beforehand: without copies nothing is misplaced,
      whatever is evicted. */
  lemma NoCopiesNoneMisplaced(entries: seq<CachedExpert>, victims: seq<nat>)
    requires NoCopies(entries) && Slots(|entries|, victims)
    ensures !PinsMisplaced(entries, victims)
  {
    hide SlotAfter, Slots;
  }

  /** No eviction reaches as far forward as a copy. */
  predicate OutOfReach(entries: seq<CachedExpert>, n: nat) {
    forall i, c :: 0 <= i < |entries| && 0 <= c < |entries| && entries[i].pinCount > 0 && entries[c].pinCount == 0
                   && c + n >= |entries| ==>
      entries[c].Key() != entries[i].Key()
  }

  /** Copies too far forward to be moved stay behind their pinned entries. */
  lemma CopiesOutOfReach(entries: seq<CachedExpert>, victims: seq<nat>, layer: nat, ids: seq<nat>)
    requires PinnedExactly(entries, layer, ids) && Slots(|entries|, victims) && OutOfReach(entries, |victims|)
    ensures !PinsMisplaced(entries, victims)
  {
    hide SlotAfter, Slots, First, PinnedExactly;
    forall i: nat, c: nat ensures !Misplaces(entries, victims, i, c) {
      if i < |entries| && c < |entries| && entries[i].pinCount > 0 && entries[c].pinCount == 0
         && entries[c].Key() == entries[i].Key()
      {
        PinnedIsFirst(entries, layer, ids, i);
        OnlyTheTailMoves(|entries|, victims, c);
        OnlyTheTailMoves(|entries|, victims, i);
      }
    }
  }

  /** Appending an unpinned entry of an absent expert changes no pin either way. */
  lemma AppendKeepsPinsIff(entries: seq<CachedExpert>, e: CachedExpert, layer: nat, ids: seq<nat>)
    requires e.pinCount == 0 && First(entries, e.Key()).None? && (e.layer == layer ==> e.expert !in ids)
    ensures PinnedExactly(entries + [e], layer, ids) <==> PinnedExactly(entries, layer, ids)
  {
    var longer := entries + [e];
    forall id | id in ids ensures First(longer, (layer, id)) == First(entries, (layer, id)) {
      FirstAppend(entries, e, (layer, id));
    }
    if PinnedExactly(entries, layer, ids) {
      AppendKeepsPins(entries, e, layer, ids);
    }
    if PinnedExactly(longer, layer, ids) {
      forall i | 0 <= i < |entries| ensures PinnedAt(entries, layer, ids, i) {
        assert PinnedAt(longer, layer, ids, i);
      }
    }
  }

  lemma AbsentStaysAbsent(entries: seq<CachedExpert>, victims: seq<nat>, key: ExpertKey)
    requires Slots(|entries|, victims) && First(entries, key).None?
    ensures First(RemoveAll(entries, victims), key).None?
  {
    hide First, SlotAfter, RemoveAll, Slots;
    var left := RemoveAll(entries, victims);
    FirstIs(entries, key);
    FirstIs(left, key);
    RemovesThatMany(entries, victims);
    forall f | 0 <= f < |left| ensures left[f].Key() != key {
      var j := SlotComesFrom(|entries|, victims, f);
      SlotHolds(entries, victims, j);
    }
  }

  /** Evictions, and then perhaps a newcomer, beside a plan: the exact fate of
      its pins. */
  lemma LoadKeepsPinsIff(entries: seq<CachedExpert>, victims: seq<nat>, added: seq<CachedExpert>, layer: nat,
                         ids: seq<nat>)
    requires PinnedExactly(entries, layer, ids) && Slots(|entries|, victims) && Spares(entries, victims)
    requires |added| <= 1
    requires added != [] ==> added[0].pinCount == 0 && First(entries, added[0].Key()).None?
    ensures PinnedExactly(RemoveAll(entries, victims) + added, layer, ids) <==> !PinsMisplaced(entries, victims)
  {
    hide First, SlotAfter, RemoveAll, Slots, PinnedAt, PinsMisplaced, Spares;
    var left := RemoveAll(entries, victims);
    EvictionsKeepPinsIff(entries, victims, layer, ids);
    if added == [] {
      assert left + added == left;
    } else {
      AbsentStaysAbsent(entries, victims, added[0].Key());
      assert added == [added[0]];
      AppendKeepsPinsIff(left, added[0], layer, ids);
    }
  }

  lemma NothingMoved(entries: seq<CachedExpert>, layer: nat, ids: seq<nat>)
    requires PinnedExactly(entries, layer, ids)
    ensures Slots(|entries|, []) && Spares(entries, []) && !PinsMisplaced(entries, [])
      && RemoveAll(entries, []) == entries
  {
    hide PinnedExactly, PinsMisplaced;
    EvictionsKeepPinsIff(entries, [], layer, ids);
  }

  // ------------------------------------------------------------------------
  // Making room

  /** What is left once `required` more bytes fit, or nothing more can go. */
  ghost function RoomMade(utility: Utility, clock: nat, entries: seq<CachedExpert>, required: nat, capacity: nat,
                          layer: nat, experts: seq<nat>): seq<CachedExpert>
  {
    VictimsAreSlots(utility, clock, entries, required, capacity, layer, experts);
    RemoveAll(entries, Victims(utility, clock, entries, required, capacity, layer, experts))
  }

  lemma RoomMadeStep(utility: Utility, clock: nat, entries: seq<CachedExpert>, required: nat, capacity: nat,
                     layer: nat, experts: seq<nat>)
    ensures RoomMade(utility, clock, entries, required, capacity, layer, experts)
         == if Weigh(entries, BytesOf) + required <= capacity then entries
            else match ColdestSlot(utility, clock, entries, layer, experts)
                 case None => entries
                 case Some(v) => RoomMade(utility, clock, SwapRemove(entries, v), required, capacity, layer, experts)
  {
    hide Weigh, Coldest;
    VictimsAreSlots(utility, clock, entries, required, capacity, layer, experts);
  }

  // ------------------------------------------------------------------------
  // Who goes, in terms of the entries' own fields

  /** `a` is not to be kept before `b`: speculation goes before demand; of a kind,
      what is least worth keeping; of equals, what was used longest ago; and then
      by layer and expert. */
  ghost predicate GoesNoLater(utility: Utility, clock: nat, a: CachedExpert, b: CachedExpert) {
    && (b.probation ==> a.probation)
    && (a.probation == b.probation ==> utility(a, clock) <= utility(b, clock))
    && (a.probation == b.probation && utility(a, clock) == utility(b, clock) ==> a.lastUsed <= b.lastUsed)
    && (a.probation == b.probation && utility(a, clock) == utility(b, clock) && a.lastUsed == b.lastUsed ==>
          a.layer < b.layer || (a.layer == b.layer && a.expert <= b.expert))
  }

  /** An entry that may go: not pinned, and not one of the route's experts. */
  ghost predicate MayGo(e: CachedExpert, layer: nat, experts: seq<nat>) {
    e.pinCount == 0 && !(e.layer == layer && e.expert in experts)
  }

  lemma VictimGoesFirst(utility: Utility, clock: nat, entries: seq<CachedExpert>, layer: nat, experts: seq<nat>, v: nat)
    requires ColdestSlot(utility, clock, entries, layer, experts) == Some(v)
    ensures v < |entries| && MayGo(entries[v], layer, experts)
    ensures forall j :: 0 <= j < |entries| && MayGo(entries[j], layer, experts) ==>
              GoesNoLater(utility, clock, entries[v], entries[j])
  {
    assert Coldest(utility, clock, entries, layer, experts, v);
    forall j | 0 <= j < |entries| && MayGo(entries[j], layer, experts)
      ensures GoesNoLater(utility, clock, entries[v], entries[j])
    {
      assert Evictable(entries[j], layer, experts);
    }
  }

  /** Main result: over a whole run of evictions, whatever goes may go, and goes no
      later than anything that stays and might have gone. In particular no demanded
      entry goes while a probation entry that may go stays. */
  lemma {:induction false} GoneGoesBeforeKept(utility: Utility, clock: nat, entries: seq<CachedExpert>, required: nat,
                                              capacity: nat, layer: nat, experts: seq<nat>, i: nat, j: nat)
    requires i < |entries| && j < |entries|
    requires var victims := Victims(utility, clock, entries, required, capacity, layer, experts);
      && Slots(|entries|, victims)
      && SlotAfter(|entries|, victims, i).None? && SlotAfter(|entries|, victims, j).Some?
    ensures MayGo(entries[i], layer, experts)
    ensures MayGo(entries[j], layer, experts) ==> GoesNoLater(utility, clock, entries[i], entries[j])
    decreases |entries|
  {
    hide Coldest, Weigh, GoesNoLater, MayGo, ColdestSlot;
    var v := ColdestSlot(utility, clock, entries, layer, experts).value;
    VictimGoesFirst(utility, clock, entries, layer, experts, v);
    if i != v {
      var n, rest := |entries| - 1, SwapRemove(entries, v);
      var i', j' := if i == n then v else i, if j == n then v else j;
      assert rest[i'] == entries[i] && rest[j'] == entries[j];
      GoneGoesBeforeKept(utility, clock, rest, required, capacity, layer, experts, i', j');
    }
  }

  /** And no more goes than has to: until the last eviction the bytes do not fit. */
  lemma {:induction false} NoMoreThanNeeded(utility: Utility, clock: nat, entries: seq<CachedExpert>, required: nat,
                                            capacity: nat, layer: nat, experts: seq<nat>, k: nat)
    requires var victims := Victims(utility, clock, entries, required, capacity, layer, experts);
      k < |victims| && Slots(|entries|, victims[..k])
    ensures var victims := Victims(utility, clock, entries, required, capacity, layer, experts);
      Weigh(RemoveAll(entries, victims[..k]), BytesOf) + required > capacity
    decreases |entries|
  {
    hide Coldest, Weigh, ColdestSlot;
    var victims := Victims(utility, clock, entries, required, capacity, layer, experts);
    if k > 0 {
      assert victims[..k][1..] == victims[1..][..k - 1];
      NoMoreThanNeeded(utility, clock, SwapRemove(entries, victims[0]), required, capacity, layer, experts, k - 1);
    }
  }

  /** Where a run leaves too little room, only pinned entries and the route's own are left. */
  lemma {:induction false} NothingElseMayGo(utility: Utility, clock: nat, entries: seq<CachedExpert>, required: nat,
                                            capacity: nat, layer: nat, experts: seq<nat>)
    ensures var left := RoomMade(utility, clock, entries, required, capacity, layer, experts);
      Weigh(left, BytesOf) + required > capacity ==> forall i :: 0 <= i < |left| ==> !MayGo(left[i], layer, experts)
    decreases |entries|
  {
    hide Weigh, RoomMade, MayGo, Coldest;
    RoomMadeStep(utility, clock, entries, required, capacity, layer, experts);
    match ColdestSlot(utility, clock, entries, layer, experts)
    case None => NoneColdest(utility, clock, entries, layer, experts);
    case Some(v) => NothingElseMayGo(utility, clock, SwapRemove(entries, v), required, capacity, layer, experts);
  }

  lemma NoneColdest(utility: Utility, clock: nat, entries: seq<CachedExpert>, layer: nat, experts: seq<nat>)
    requires ColdestSlot(utility, clock, entries, layer, experts).None?
    ensures forall i :: 0 <= i < |entries| ==> !MayGo(entries[i], layer, experts)
  {
    hide Coldest;
    var best := ColdestOfFirst(utility, clock, entries, |entries|, layer, experts);
    if best.Some? {
      assert Coldest(utility, clock, entries, layer, experts, best.value) by {
        ColdestOfAll(utility, clock, entries, layer, experts, best.value);
      }
    } else {
      assert forall i :: 0 <= i < |entries| ==> !Evictable(entries[i], layer, experts);
    }
  }

  lemma ColdestOfAll(utility: Utility, clock: nat, entries: seq<CachedExpert>, layer: nat, experts: seq<nat>, b: nat)
    requires ColdestSoFar(utility, clock, entries, |entries|, layer, experts, Some(b))
    ensures Coldest(utility, clock, entries, layer, experts, b)
  {
    hide Before, Evictable;
  }

  lemma {:induction false} ColdestOfFirst(utility: Utility, clock: nat, entries: seq<CachedExpert>, n: nat, layer: nat,
                                          experts: seq<nat>) returns (best: Option<nat>)
    requires n <= |entries|
    ensures ColdestSoFar(utility, clock, entries, n, layer, experts, best)
  {
    hide Before, Evictable;
    best := None;
    if n > 0 {
      best := ColdestOfFirst(utility, clock, entries, n - 1, layer, experts);
      if Evictable(entries[n - 1], layer, experts) {
        if best.None? {
          NotBeforeItself(utility, clock, entries[n - 1]);
          best := Some(n - 1);
        } else if Before(utility, clock, entries[n - 1], entries[best.value]) {
          ColderThanSoFar(utility, clock, entries, n - 1, layer, experts, best.value);
          best := Some(n - 1);
        }
      }
    }
  }
}
