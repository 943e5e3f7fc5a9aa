/** Counting pins expert by expert: what draining, evicting, binding and releasing
    do to the pins of each, whatever state the entries are in. */
module ExpertPins {
  import opened Wrappers
  import opened ExpertModel
  import opened ExpertEviction

  /** An entry's pins, if it is an entry of the expert. */
  function PinsOf(key: ExpertKey): CachedExpert -> nat {
    (e: CachedExpert) => if e.Key() == key then e.pinCount else 0
  }

  /** All the pins of an expert, over all its entries. */
  function PinsAt(entries: seq<CachedExpert>, key: ExpertKey): nat {
    Weigh(entries, PinsOf(key))
  }

  ghost predicate SamePins(a: seq<CachedExpert>, b: seq<CachedExpert>) {
    forall key: ExpertKey :: PinsAt(a, key) == PinsAt(b, key)
  }

  /** The entries, and the experts a transaction holds. */
  datatype Holdings = Holdings(entries: seq<CachedExpert>, layer: nat, ids: seq<nat>)

  function Due(layer: nat, ids: seq<nat>, key: ExpertKey): nat {
    if key.0 == layer && key.1 in ids then 1 else 0
  }

  /** An expert's pins over the one its plan holds: those no plan will give back. */
  function Surplus(h: Holdings, key: ExpertKey): int {
    PinsAt(h.entries, key) - Due(h.layer, h.ids, key)
  }

  /** Every planned expert has a pin. */
  ghost predicate Held(h: Holdings) {
    Distinct(h.ids) && forall key: ExpertKey :: 0 <= Surplus(h, key)
  }

  /** No expert has lost a pin that was nobody's to give back. */
  ghost predicate NoneGivenBack(a: Holdings, b: Holdings) {
    forall key: ExpertKey :: Surplus(a, key) <= Surplus(b, key)
  }

  lemma NothingGivenBack(h: Holdings)
    ensures NoneGivenBack(h, h)
  {
  }

  lemma NoneGivenBackChain(a: Holdings, b: Holdings, c: Holdings)
    requires NoneGivenBack(a, b) && NoneGivenBack(b, c)
    ensures NoneGivenBack(a, c)
  {
    hide Surplus;
    forall key: ExpertKey ensures Surplus(a, key) <= Surplus(c, key) {
      assert Surplus(a, key) <= Surplus(b, key);
    }
  }

  lemma HeldStays(a: Holdings, b: Holdings)
    requires Held(a) && NoneGivenBack(a, b) && (b.ids == a.ids || Distinct(b.ids))
    ensures Held(b)
  {
    hide Surplus, Distinct;
    forall key: ExpertKey ensures 0 <= Surplus(b, key) {
      assert Surplus(a, key) <= Surplus(b, key);
    }
  }

  lemma SamePinsHold(h: Holdings, entries: seq<CachedExpert>)
    requires SamePins(h.entries, entries)
    ensures NoneGivenBack(h, h.(entries := entries))
  {
    hide PinsAt, Due;
    forall key: ExpertKey ensures Surplus(h, key) <= Surplus(h.(entries := entries), key) {
      assert PinsAt(h.entries, key) == PinsAt(entries, key);
    }
  }

  /** Changing nothing changes no pin. */
  lemma SamePinsItself(entries: seq<CachedExpert>)
    ensures SamePins(entries, entries)
  {
  }

  lemma SamePinsChain(a: seq<CachedExpert>, b: seq<CachedExpert>, c: seq<CachedExpert>)
    requires SamePins(a, b) && SamePins(b, c)
    ensures SamePins(a, c)
  {
    hide PinsAt;
    forall key: ExpertKey ensures PinsAt(a, key) == PinsAt(c, key) {
      assert PinsAt(a, key) == PinsAt(b, key);
    }
  }

  // ------------------------------------------------------------------------
  // One entry at a time

  lemma AppendPins(entries: seq<CachedExpert>, e: CachedExpert, key: ExpertKey)
    ensures PinsAt(entries + [e], key) == PinsAt(entries, key) + PinsOf(key)(e)
  {
    WeighAppend(entries, e, PinsOf(key));
  }

  lemma UpdatePins(entries: seq<CachedExpert>, p: nat, e: CachedExpert, key: ExpertKey)
    requires p < |entries|
    ensures PinsAt(entries[p := e], key) + PinsOf(key)(entries[p]) == PinsAt(entries, key) + PinsOf(key)(e)
  {
    WeighUpdate(entries, p, e, PinsOf(key));
  }

  lemma AppendUnpinned(entries: seq<CachedExpert>, e: CachedExpert)
    requires e.pinCount == 0
    ensures SamePins(entries, entries + [e])
  {
    forall key: ExpertKey ensures PinsAt(entries, key) == PinsAt(entries + [e], key) {
      AppendPins(entries, e, key);
    }
  }

  lemma UpdateKeepsPins(entries: seq<CachedExpert>, p: nat, e: CachedExpert)
    requires p < |entries| && e.Key() == entries[p].Key() && e.pinCount == entries[p].pinCount
    ensures SamePins(entries, entries[p := e])
  {
    forall key: ExpertKey ensures PinsAt(entries, key) == PinsAt(entries[p := e], key) {
      UpdatePins(entries, p, e, key);
    }
  }

  lemma RemoveUnpinned(entries: seq<CachedExpert>, v: nat)
    requires v < |entries| && entries[v].pinCount == 0
    ensures SamePins(entries, SwapRemove(entries, v))
  {
    forall key: ExpertKey ensures PinsAt(entries, key) == PinsAt(SwapRemove(entries, v), key) {
      WeighSwapRemove(entries, v, PinsOf(key));
    }
  }

  /** An expert with a pin has a pinned entry. */
  lemma {:induction false} PinnedSomewhere(entries: seq<CachedExpert>, key: ExpertKey)
    requires PinsAt(entries, key) > 0
    ensures exists i :: 0 <= i < |entries| && entries[i].Key() == key && entries[i].pinCount > 0
  {
    var n := |entries| - 1;
    if entries[n].Key() != key || entries[n].pinCount == 0 {
      PinnedSomewhere(entries[..n], key);
      var i :| 0 <= i < n && entries[..n][i].Key() == key && entries[..n][i].pinCount > 0;
      assert entries[i] == entries[..n][i];
    }
  }

  // ------------------------------------------------------------------------
  // Whole steps

  lemma {:induction false} RemovingKeepsPins(entries: seq<CachedExpert>, victims: seq<nat>)
    requires Slots(|entries|, victims) && Spares(entries, victims)
    ensures SamePins(entries, RemoveAll(entries, victims))
    decreases |victims|
  {
    hide PinsAt;
    if victims != [] {
      var v := victims[0];
      assert SlotAfter(|entries|, victims, v) == None;
      RemoveUnpinned(entries, v);
      RestIsSpared(entries, victims);
      RemovingKeepsPins(SwapRemove(entries, v), victims[1..]);
    }
  }

  lemma RestIsSpared(entries: seq<CachedExpert>, victims: seq<nat>)
    requires victims != [] && Slots(|entries|, victims) && Spares(entries, victims)
    ensures Spares(SwapRemove(entries, victims[0]), victims[1..])
  {
    var v, n := victims[0], |entries| - 1;
    var rest := SwapRemove(entries, v);
    forall j | 0 <= j < |rest| && rest[j].pinCount > 0 ensures SlotAfter(|rest|, victims[1..], j).Some? {
      var i := if j == v then n else j;
      assert entries[i] == rest[j];
      assert SlotAfter(|entries|, victims, i).Some?;
    }
  }

  lemma RoomKeepsPins(utility: Utility, clock: nat, entries: seq<CachedExpert>, required: nat, capacity: nat,
                      layer: nat, experts: seq<nat>)
    ensures SamePins(entries, RoomMade(utility, clock, entries, required, capacity, layer, experts))
  {
    hide PinsAt, Victims, RemoveAll, Slots, Spares;
    VictimsSparePinned(utility, clock, entries, required, capacity, layer, experts);
    RemovingKeepsPins(entries, Victims(utility, clock, entries, required, capacity, layer, experts));
  }

  lemma {:induction false} DrainKeepsPins(s: Intake, inbox: seq<PrefetchDelivery>, demanded: seq<nat>, capacity: nat)
    ensures SamePins(s.entries, AdmitAll(s, inbox, demanded, capacity).entries)
  {
    hide PinsAt;
    if inbox != [] {
      var n := |inbox| - 1;
      DrainKeepsPins(s, inbox[..n], demanded, capacity);
      var t := AdmitAll(s, inbox[..n], demanded, capacity);
      var d := inbox[n];
      AppendUnpinned(t.entries, CachedExpert(d.layer, d.expert, 1, t.clock + 1, 0, true, t.clock + 1, d.value));
      SamePinsChain(s.entries, t.entries, AdmitOne(t, d, demanded, capacity).entries);
    }
  }

  /** Every expert the mask calls a hit is resident. */
  ghost predicate HitsResident(entries: seq<CachedExpert>, layer: nat, ids: seq<nat>, hits: seq<bool>)
    requires |hits| == |ids|
  {
    forall i :: 0 <= i < |ids| && hits[i] ==> First(entries, (layer, ids[i])).Some?
  }

  /** Binding one planned expert pins it once more. */
  lemma BindOnePins(entries: seq<CachedExpert>, truth: ExpertKey -> ExpertValue, layer: nat, id: nat, hit: bool,
                    clock: nat, key: ExpertKey)
    requires hit ==> First(entries, (layer, id)).Some?
    ensures PinsAt(BindOne(entries, truth, layer, id, hit, clock), key)
         == PinsAt(entries, key) + if key == (layer, id) then 1 else 0
  {
    hide PinsAt, First;
    FirstIs(entries, (layer, id));
    if hit {
      var p := First(entries, (layer, id)).value;
      UpdatePins(entries, p, PinnedAs(entries[p], clock), key);
    } else {
      AppendPins(entries, CachedExpert(layer, id, 1, clock, 1, false, clock, truth((layer, id))), key);
    }
  }

  lemma BindOneKeepsResident(entries: seq<CachedExpert>, truth: ExpertKey -> ExpertValue, layer: nat, ids: seq<nat>,
                             hits: seq<bool>, clock: nat)
    requires |hits| == |ids| && ids != [] && HitsResident(entries, layer, ids, hits)
    ensures HitsResident(BindOne(entries, truth, layer, ids[0], hits[0], clock), layer, ids[1..], hits[1..])
  {
    hide First;
    var next := BindOne(entries, truth, layer, ids[0], hits[0], clock);
    forall i | 0 <= i < |ids[1..]| && hits[1..][i] ensures First(next, (layer, ids[1..][i])).Some? {
      assert hits[i + 1] && ids[i + 1] == ids[1..][i];
      if hits[0] {
        FirstIs(entries, (layer, ids[0]));
        FirstSameKeys(entries, next, (layer, ids[i + 1]));
      } else {
        FirstAppend(entries, next[|entries|], (layer, ids[i + 1]));
      }
    }
  }

  /** Binding a transaction pins each of its experts once more, and no other. */
  lemma {:induction false} BoundPins(entries: seq<CachedExpert>, truth: ExpertKey -> ExpertValue, layer: nat,
                                     ids: seq<nat>, hits: seq<bool>, clock: nat, key: ExpertKey)
    requires |hits| == |ids| && Distinct(ids) && HitsResident(entries, layer, ids, hits)
    ensures PinsAt(Bound(entries, truth, layer, ids, hits, clock), key) == PinsAt(entries, key) + Due(layer, ids, key)
    decreases |ids|
  {
    hide PinsAt, BindOne, HitsResident;
    if ids != [] {
      BindOnePinsFirst(entries, truth, layer, ids, hits, clock, key);
      BoundPins(BindOne(entries, truth, layer, ids[0], hits[0], clock + 1), truth, layer, ids[1..], hits[1..],
        clock + 1, key);
      assert ids == [ids[0]] + ids[1..] && ids[0] !in ids[1..];
    }
  }

  lemma BindOnePinsFirst(entries: seq<CachedExpert>, truth: ExpertKey -> ExpertValue, layer: nat, ids: seq<nat>,
                         hits: seq<bool>, clock: nat, key: ExpertKey)
    requires |hits| == |ids| && ids != [] && HitsResident(entries, layer, ids, hits)
    ensures var next := BindOne(entries, truth, layer, ids[0], hits[0], clock + 1);
      && HitsResident(next, layer, ids[1..], hits[1..])
      && PinsAt(next, key) == PinsAt(entries, key) + if key == (layer, ids[0]) then 1 else 0
  {
    hide PinsAt, BindOne;
    BindOneKeepsResident(entries, truth, layer, ids, hits, clock + 1);
    BindOnePins(entries, truth, layer, ids[0], hits[0], clock + 1, key);
  }

  /** A release takes at most one pin from each expert of its plan. */
  lemma {:induction false} ReleasedPins(entries: seq<CachedExpert>, layer: nat, ids: seq<nat>, key: ExpertKey)
    requires Distinct(ids) && Released(entries, layer, ids).Some?
    ensures PinsAt(entries, key) <= PinsAt(Released(entries, layer, ids).value, key) + Due(layer, ids, key)
    decreases |ids|
  {
    hide PinsAt, First;
    if ids != [] {
      FirstIs(entries, (layer, ids[0]));
      var p := First(entries, (layer, ids[0])).value;
      var next := WithPins(entries, p, SaturatingSub(entries[p].pinCount, 1));
      UpdatePins(entries, p, next[p], key);
      ReleasedPins(next, layer, ids[1..], key);
      assert ids == [ids[0]] + ids[1..] && ids[0] !in ids[1..];
    }
  }

  // ------------------------------------------------------------------------
  // Plans begin and end

  lemma HeldIsResident(h: Holdings)
    requires Held(h)
    ensures ResidentAll(h.entries, h.layer, h.ids)
  {
    hide First, PinsAt;
    forall id | id in h.ids ensures First(h.entries, (h.layer, id)).Some? {
      assert 0 <= Surplus(h, (h.layer, id));
      PinnedSomewhere(h.entries, (h.layer, id));
      FirstIs(h.entries, (h.layer, id));
    }
  }

  /** A transaction takes on exactly the pins it will give back. */
  lemma BindingHolds(before: seq<CachedExpert>, left: seq<CachedExpert>, truth: ExpertKey -> ExpertValue, layer: nat,
                     ids: seq<nat>, hits: seq<bool>, clock: nat, idle: nat)
    requires SamePins(before, left) && |hits| == |ids| && Distinct(ids) && HitsResident(left, layer, ids, hits)
    ensures NoneGivenBack(Holdings(before, idle, []), Holdings(Bound(left, truth, layer, ids, hits, clock), layer, ids))
  {
    hide PinsAt, Bound, HitsResident;
    forall key: ExpertKey
      ensures Surplus(Holdings(before, idle, []), key)
           <= Surplus(Holdings(Bound(left, truth, layer, ids, hits, clock), layer, ids), key)
    {
      assert PinsAt(before, key) == PinsAt(left, key);
      BoundPins(left, truth, layer, ids, hits, clock, key);
    }
  }

  lemma ReleaseHolds(h: Holdings, idle: nat)
    requires Distinct(h.ids) && Released(h.entries, h.layer, h.ids).Some?
    ensures NoneGivenBack(h, Holdings(Released(h.entries, h.layer, h.ids).value, idle, []))
  {
    hide PinsAt, Released;
    var after := Holdings(Released(h.entries, h.layer, h.ids).value, idle, []);
    forall key: ExpertKey ensures Surplus(h, key) <= Surplus(after, key) {
      ReleasedPins(h.entries, h.layer, h.ids, key);
    }
  }

  /** A plan whose experts all have a pin can be finished, and takes back no more
      than it took. */
  lemma HeldReleases(h: Holdings)
    requires Held(h)
    ensures Distinct(h.ids) && Released(h.entries, h.layer, h.ids).Some?
    ensures forall idle: nat :: NoneGivenBack(h, Holdings(Released(h.entries, h.layer, h.ids).value, idle, []))
  {
    hide ResidentAll, Released, NoneGivenBack, Surplus;
    HeldIsResident(h);
    ResidentIsReleased(h.entries, h.layer, h.ids);
    forall idle: nat ensures NoneGivenBack(h, Holdings(Released(h.entries, h.layer, h.ids).value, idle, [])) {
      ReleaseHolds(h, idle);
    }
  }

  // ------------------------------------------------------------------------
  // Pins in order

  /** With its pins in order a plan holds every pin there is. */
  lemma InOrderHasNoSurplus(h: Holdings, key: ExpertKey)
    requires PinnedExactly(h.entries, h.layer, h.ids)
    ensures Surplus(h, key) == 0
  {
    hide First, PinsAt, PinnedExactly;
    FirstIs(h.entries, key);
    match First(h.entries, key)
    case None =>
      NotDue(h, key);
      NoPinsFrom(h.entries, key);
    case Some(p) =>
      OnePinAt(h, key, p);
      PinsOnlyAt(h.entries, key, p);
  }

  lemma NotDue(h: Holdings, key: ExpertKey)
    requires PinnedExactly(h.entries, h.layer, h.ids) && First(h.entries, key).None?
    ensures Due(h.layer, h.ids, key) == 0
  {
    hide First;
    assert key == (key.0, key.1);
  }

  lemma OnePinAt(h: Holdings, key: ExpertKey, p: nat)
    requires PinnedExactly(h.entries, h.layer, h.ids) && First(h.entries, key) == Some(p)
    ensures p < |h.entries| && h.entries[p].Key() == key && h.entries[p].pinCount == Due(h.layer, h.ids, key)
    ensures forall i :: 0 <= i < |h.entries| && i != p && h.entries[i].Key() == key ==> h.entries[i].pinCount == 0
  {
    hide First;
    FirstIs(h.entries, key);
    FirstIs(h.entries, (h.layer, key.1));
    assert PinnedAt(h.entries, h.layer, h.ids, p);
    forall i | 0 <= i < |h.entries| && i != p && h.entries[i].Key() == key ensures h.entries[i].pinCount == 0 {
      assert PinnedAt(h.entries, h.layer, h.ids, i);
    }
  }

  lemma {:induction false} NoPinsFrom(entries: seq<CachedExpert>, key: ExpertKey)
    requires forall i :: 0 <= i < |entries| ==> entries[i].Key() != key || entries[i].pinCount == 0
    ensures PinsAt(entries, key) == 0
  {
    if entries != [] {
      NoPinsFrom(entries[..|entries| - 1], key);
    }
  }

  lemma {:induction false} PinsOnlyAt(entries: seq<CachedExpert>, key: ExpertKey, p: nat)
    requires p < |entries| && entries[p].Key() == key
    requires forall i :: 0 <= i < |entries| && i != p && entries[i].Key() == key ==> entries[i].pinCount == 0
    ensures PinsAt(entries, key) == entries[p].pinCount
  {
    var n := |entries| - 1;
    if p == n {
      NoPinsFrom(entries[..n], key);
    } else {
      PinsOnlyAt(entries[..n], key, p);
    }
  }

  /** A pin that is nobody's to give back keeps the pins from ever being in order. */
  lemma SurplusIsOutOfOrder(h: Holdings, key: ExpertKey)
    requires Surplus(h, key) > 0
    ensures !PinnedExactly(h.entries, h.layer, h.ids)
    ensures exists i :: 0 <= i < |h.entries| && h.entries[i].Key() == key && h.entries[i].pinCount > 0
  {
    hide PinsAt, PinnedExactly;
    if PinnedExactly(h.entries, h.layer, h.ids) {
      InOrderHasNoSurplus(h, key);
    }
    PinnedSomewhere(h.entries, key);
  }
}
