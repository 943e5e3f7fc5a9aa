/** The values the expert cache works on, and what positions, pins and byte
    sums do when its entry vector changes. */
module ExpertModel {
  import opened Wrappers

  const TOP_K := 8
  const NUM_EXPERTS := 256

  type ExpertKey = (nat, nat)

  /** An exact router result. */
  datatype RouterResult = RouterResult(ids: seq<nat>, weights: seq<real>)

  function Sum(weights: seq<real>): real {
    if weights == [] then 0.0 else Sum(weights[..|weights| - 1]) + weights[|weights| - 1]
  }

  ghost predicate ExactRoute(route: RouterResult) {
    && |route.ids| == |route.weights| == TOP_K
    && Distinct(route.ids)
    && (forall i :: 0 <= i < TOP_K ==> route.ids[i] < NUM_EXPERTS && 0.0 <= route.weights[i])
    && -0.0001 <= Sum(route.weights) - 1.0 <= 0.0001
  }

  /** The bytes of one expert, with the size they are accounted at. */
  datatype ExpertValue = ExpertValue(payload: int, storedBytes: nat)

  /** The weight file. `truth` is what it holds; a load can fail. */
  datatype Loader = Loader(truth: ExpertKey -> ExpertValue, known: ExpertKey -> bool, readable: ExpertKey -> bool) {
    function StoredBytes(key: ExpertKey): Option<nat> {
      if known(key) then Some(truth(key).storedBytes) else None
    }

    function Load(key: ExpertKey): Option<ExpertValue> {
      if known(key) && readable(key) then Some(truth(key)) else None
    }
  }

  datatype CachedExpert = CachedExpert(
    layer: nat,
    expert: nat,
    frequency: nat,
    lastUsed: nat,
    pinCount: nat,
    probation: bool,
    arrivalClock: nat,
    value: ExpertValue)
  {
    function Key(): ExpertKey {
      (layer, expert)
    }
  }

  datatype ExpertLoadPlan = ExpertLoadPlan(planId: nat, layer: nat, route: RouterResult, hits: seq<bool>,
    missBytes: nat)

  datatype BatchExpertPlan = BatchExpertPlan(planId: nat, layer: nat, distinct: seq<nat>, routes: seq<RouterResult>)

  datatype PrefetchDelivery = PrefetchDelivery(layer: nat, expert: nat, value: ExpertValue, issuedClock: nat)

  datatype CacheError =
    | PlanOverlap
    | InvalidRoute
    | UnknownExpert
    | RouteTooLarge
    | CannotPin
    | LoadFailed
    | LostHit
    | UnstagedMiss
    | OutsidePlan
    | MissingBinding
    | NotActive
    | LostPin

  // ------------------------------------------------------------------------
  // Looking an expert up

  /** The first entry of an expert, as a linear search finds it. */
  function FirstFrom(entries: seq<CachedExpert>, key: ExpertKey, from: nat): (r: Option<nat>)
    ensures r.Some? ==> from <= r.value < |entries|
    decreases |entries| - from
  {
    if |entries| <= from then None
    else if entries[from].Key() == key then Some(from)
    else FirstFrom(entries, key, from + 1)
  }

  function First(entries: seq<CachedExpert>, key: ExpertKey): (r: Option<nat>)
    ensures r.Some? ==> r.value < |entries|
  {
    FirstFrom(entries, key, 0)
  }

  ghost predicate IsFirst(entries: seq<CachedExpert>, key: ExpertKey, from: nat, r: Option<nat>) {
    match r
    case Some(i) => from <= i < |entries| && entries[i].Key() == key
      && forall j :: from <= j < i ==> entries[j].Key() != key
    case None => forall j :: from <= j < |entries| ==> entries[j].Key() != key
  }

  lemma {:induction false} FirstFromIs(entries: seq<CachedExpert>, key: ExpertKey, from: nat)
    ensures IsFirst(entries, key, from, FirstFrom(entries, key, from))
    decreases |entries| - from
  {
    if from < |entries| && entries[from].Key() != key {
      FirstFromIs(entries, key, from + 1);
    }
  }

  lemma FirstIs(entries: seq<CachedExpert>, key: ExpertKey)
    ensures IsFirst(entries, key, 0, First(entries, key))
  {
    FirstFromIs(entries, key, 0);
  }

  lemma FirstUnique(entries: seq<CachedExpert>, key: ExpertKey, r: Option<nat>)
    requires IsFirst(entries, key, 0, r)
    ensures First(entries, key) == r
  {
    FirstIs(entries, key);
  }

  ghost predicate SameKeys(a: seq<CachedExpert>, b: seq<CachedExpert>) {
    |a| == |b| && forall i :: 0 <= i < |a| ==> a[i].Key() == b[i].Key()
  }

  lemma FirstSameKeys(a: seq<CachedExpert>, b: seq<CachedExpert>, key: ExpertKey)
    requires SameKeys(a, b)
    ensures First(a, key) == First(b, key)
  {
    FirstIs(a, key);
    FirstUnique(b, key, First(a, key));
  }

  lemma FirstAppend(entries: seq<CachedExpert>, e: CachedExpert, key: ExpertKey)
    ensures First(entries + [e], key) ==
            if First(entries, key).Some? then First(entries, key)
            else if e.Key() == key then Some(|entries|)
            else None
  {
    FirstIs(entries, key);
    var r := First(entries, key);
    FirstUnique(entries + [e], key, if r.Some? then r else if e.Key() == key then Some(|entries|) else None);
  }

  /** Removing an entry of another expert keeps an expert resident. */
  lemma FirstSurvives(entries: seq<CachedExpert>, i: nat, key: ExpertKey)
    requires i < |entries| && entries[i].Key() != key
    ensures First(SwapRemove(entries, i), key).Some? <==> First(entries, key).Some?
  {
    var rest := SwapRemove(entries, i);
    FirstIs(entries, key);
    FirstIs(rest, key);
    if First(entries, key).Some? {
      var j := First(entries, key).value;
      assert rest[if j == |entries| - 1 then i else j].Key() == key;
    }
    if First(rest, key).Some? {
      var j := First(rest, key).value;
      assert entries[if j == i then |entries| - 1 else j].Key() == key;
    }
  }

  // ------------------------------------------------------------------------
  // Pins

  /** Entry `i` is the one a lookup of some planned expert finds. */
  ghost predicate Planned(entries: seq<CachedExpert>, layer: nat, ids: seq<nat>, i: int) {
    && 0 <= i < |entries|
    && entries[i].expert in ids
    && First(entries, (layer, entries[i].expert)) == Some(i)
  }

  ghost predicate PinnedAt(entries: seq<CachedExpert>, layer: nat, ids: seq<nat>, i: int) {
    0 <= i < |entries| && entries[i].pinCount == if Planned(entries, layer, ids, i) then 1 else 0
  }

  ghost predicate ResidentAll(entries: seq<CachedExpert>, layer: nat, ids: seq<nat>) {
    forall id :: id in ids ==> First(entries, (layer, id)).Some?
  }

  /** Exactly the planned experts are pinned, once each, and all are resident. */
  ghost predicate PinnedExactly(entries: seq<CachedExpert>, layer: nat, ids: seq<nat>) {
    && ResidentAll(entries, layer, ids)
    && forall i :: 0 <= i < |entries| ==> PinnedAt(entries, layer, ids, i)
  }

  ghost predicate Unpinned(entries: seq<CachedExpert>) {
    forall i :: 0 <= i < |entries| ==> entries[i].pinCount == 0
  }

  lemma NothingPlanned(entries: seq<CachedExpert>, layer: nat)
    ensures PinnedExactly(entries, layer, []) <==> Unpinned(entries)
  {
    if PinnedExactly(entries, layer, []) {
      forall i | 0 <= i < |entries| ensures entries[i].pinCount == 0 {
        assert PinnedAt(entries, layer, [], i);
      }
    }
  }

  /** Appending an unpinned entry of any expert changes no pin. */
  lemma AppendKeepsPins(entries: seq<CachedExpert>, e: CachedExpert, layer: nat, ids: seq<nat>)
    requires PinnedExactly(entries, layer, ids) && e.pinCount == 0
    ensures PinnedExactly(entries + [e], layer, ids)
  {
    var longer := entries + [e];
    forall id | id in ids ensures First(longer, (layer, id)) == First(entries, (layer, id)) {
      FirstAppend(entries, e, (layer, id));
    }
    forall i | 0 <= i < |longer| ensures PinnedAt(longer, layer, ids, i) {
      if i < |entries| {
        assert PinnedAt(entries, layer, ids, i);
      }
    }
  }

  /** Pinning the entry a lookup of one more expert finds. */
  lemma PinOneMore(entries: seq<CachedExpert>, e: CachedExpert, p: nat, layer: nat, ids: seq<nat>, id: nat)
    requires PinnedExactly(entries, layer, ids) && id !in ids
    requires First(entries, (layer, id)) == Some(p)
    requires e.Key() == entries[p].Key() && e.pinCount == entries[p].pinCount + 1
    ensures PinnedExactly(entries[p := e], layer, ids + [id])
  {
    var after := entries[p := e];
    FirstIs(entries, (layer, id));
    forall key ensures First(after, key) == First(entries, key) {
      FirstSameKeys(entries, after, key);
    }
    forall i | 0 <= i < |after| ensures PinnedAt(after, layer, ids + [id], i) {
      assert PinnedAt(entries, layer, ids, i);
      if after[i].expert == id && First(entries, (layer, id)) == Some(i) {
        assert i == p;
      }
    }
  }

  /** Appending the pinned entry of a planned expert that was not resident. */
  lemma AppendPinned(entries: seq<CachedExpert>, e: CachedExpert, layer: nat, ids: seq<nat>, id: nat)
    requires PinnedExactly(entries, layer, ids) && id !in ids
    requires First(entries, (layer, id)).None? && e.Key() == (layer, id) && e.pinCount == 1
    ensures PinnedExactly(entries + [e], layer, ids + [id])
  {
    var longer := entries + [e];
    forall x ensures First(longer, (layer, x)) == (if x == id then Some(|entries|) else First(entries, (layer, x))) {
      FirstAppend(entries, e, (layer, x));
    }
    forall i | 0 <= i < |longer| ensures PinnedAt(longer, layer, ids + [id], i) {
      if i < |entries| {
        assert PinnedAt(entries, layer, ids, i);
      }
    }
  }

  /** Releasing the pin of the first planned expert. */
  lemma ReleaseOne(entries: seq<CachedExpert>, e: CachedExpert, p: nat, layer: nat, ids: seq<nat>)
    requires PinnedExactly(entries, layer, ids) && ids != [] && ids[0] !in ids[1..]
    requires First(entries, (layer, ids[0])) == Some(p)
    requires e.Key() == entries[p].Key() && e.pinCount == SaturatingSub(entries[p].pinCount, 1)
    ensures PinnedExactly(entries[p := e], layer, ids[1..])
  {
    var after := entries[p := e];
    FirstIs(entries, (layer, ids[0]));
    forall key ensures First(after, key) == First(entries, key) {
      FirstSameKeys(entries, after, key);
    }
    forall i | 0 <= i < |after| ensures PinnedAt(after, layer, ids[1..], i) {
      assert PinnedAt(entries, layer, ids, i);
      assert ids == [ids[0]] + ids[1..];
    }
  }

  // ------------------------------------------------------------------------
  // Byte sums

  function BytesOf(e: CachedExpert): nat {
    e.value.storedBytes
  }

  function ProbationBytesOf(e: CachedExpert): nat {
    if e.probation then e.value.storedBytes else 0
  }

  function Weigh(entries: seq<CachedExpert>, w: CachedExpert -> nat): nat {
    if entries == [] then 0 else Weigh(entries[..|entries| - 1], w) + w(entries[|entries| - 1])
  }

  lemma WeighAppend(entries: seq<CachedExpert>, e: CachedExpert, w: CachedExpert -> nat)
    ensures Weigh(entries + [e], w) == Weigh(entries, w) + w(e)
  {
    assert (entries + [e])[..|entries|] == entries;
  }

  lemma {:induction false} WeighUpdate(entries: seq<CachedExpert>, i: nat, e: CachedExpert, w: CachedExpert -> nat)
    requires i < |entries|
    ensures Weigh(entries[i := e], w) + w(entries[i]) == Weigh(entries, w) + w(e)
    decreases |entries|
  {
    var n := |entries| - 1;
    if i < n {
      assert entries[i := e][..n] == entries[..n][i := e];
      WeighUpdate(entries[..n], i, e, w);
    } else {
      assert entries[i := e][..n] == entries[..n];
    }
  }

  lemma WeighSwapRemove(entries: seq<CachedExpert>, i: nat, w: CachedExpert -> nat)
    requires i < |entries|
    ensures Weigh(SwapRemove(entries, i), w) + w(entries[i]) == Weigh(entries, w)
  {
    var n := |entries| - 1;
    var front, last := entries[..n], entries[n];
    assert Weigh(entries, w) == Weigh(front, w) + w(last);
    hide Weigh;
    if i < n {
      WeighUpdate(front, i, last, w);
    }
  }

  // ------------------------------------------------------------------------
  // Cached values are the file's values

  ghost predicate Faithful(entries: seq<CachedExpert>, truth: ExpertKey -> ExpertValue) {
    forall i :: 0 <= i < |entries| ==> entries[i].value == truth(entries[i].Key())
  }

  lemma UpdateIsFaithful(entries: seq<CachedExpert>, p: nat, e: CachedExpert, truth: ExpertKey -> ExpertValue)
    requires p < |entries| && e.Key() == entries[p].Key() && e.value == entries[p].value
    ensures SameKeys(entries[p := e], entries)
    ensures Faithful(entries, truth) ==> Faithful(entries[p := e], truth)
  {
  }

  ghost predicate FaithfulInbox(inbox: seq<PrefetchDelivery>, truth: ExpertKey -> ExpertValue) {
    forall i :: 0 <= i < |inbox| ==> inbox[i].value == truth((inbox[i].layer, inbox[i].expert))
  }

  // ------------------------------------------------------------------------
  // What draining and binding make of the entry vector

  /** The part of the cache that draining the inbox changes. */
  datatype Intake = Intake(entries: seq<CachedExpert>, residentBytes: nat, clock: nat, wastedBytes: nat)

  function AdmitOne(s: Intake, d: PrefetchDelivery, demanded: seq<nat>, capacity: nat): Intake {
    var bytes := d.value.storedBytes;
    if s.residentBytes + bytes > capacity && d.expert !in demanded then s.(wastedBytes := s.wastedBytes + bytes)
    else
      Intake(s.entries + [CachedExpert(d.layer, d.expert, 1, s.clock + 1, 0, true, s.clock + 1, d.value)],
             s.residentBytes + bytes, s.clock + 1, s.wastedBytes)
  }

  predicate Fits(s: Intake, d: PrefetchDelivery, capacity: nat) {
    s.residentBytes + d.value.storedBytes <= capacity
  }

  /** The drain's test for demand looks at the expert and not at its layer: over
      capacity it differs from a test of both exactly on a delivery for another
      layer of an expert that the route names. */
  lemma DemandIgnoresLayer(s: Intake, d: PrefetchDelivery, layer: nat, demanded: seq<nat>, capacity: nat)
    ensures var isAdmitted := AdmitOne(s, d, demanded, capacity).entries != s.entries;
      var isDue := Fits(s, d, capacity) || (d.layer == layer && d.expert in demanded);
      isAdmitted != isDue <==> !Fits(s, d, capacity) && d.expert in demanded && d.layer != layer
  {
    assert |AdmitOne(s, d, demanded, capacity).entries| == |s.entries| <==>
      !Fits(s, d, capacity) && d.expert !in demanded;
  }

  /** A full cache and a delivery for layer 1 while layer 0 is prepared: it is
      admitted over capacity if the route of layer 0 names the same expert. */
  lemma OtherLayerIsAdmitted(resident: CachedExpert, value: ExpertValue, expert: nat)
    requires 0 < value.storedBytes
    ensures var full := Intake([resident], resident.value.storedBytes, 1, 0);
      var late := PrefetchDelivery(1, expert, value, 0);
      var s := AdmitOne(full, late, [expert], full.residentBytes);
      |s.entries| == 2 && s.entries[1].Key() == (1, expert) && full.residentBytes < s.residentBytes
  {
  }

  function AdmitAll(s: Intake, inbox: seq<PrefetchDelivery>, demanded: seq<nat>, capacity: nat): Intake {
    if inbox == [] then s
    else AdmitOne(AdmitAll(s, inbox[..|inbox| - 1], demanded, capacity), inbox[|inbox| - 1], demanded, capacity)
  }

  function PinnedAs(e: CachedExpert, clock: nat): CachedExpert {
    e.(frequency := e.frequency + 1, lastUsed := clock, pinCount := e.pinCount + 1, probation := false)
  }

  /** A planned expert after binding at `clock`: a hit is counted, made recent,
      pinned and promoted; a miss is pushed, pinned. */
  function BindOne(entries: seq<CachedExpert>, truth: ExpertKey -> ExpertValue, layer: nat, id: nat, hit: bool,
                   clock: nat)
    : seq<CachedExpert>
  {
    if hit then
      match First(entries, (layer, id))
      case None => entries
      case Some(p) =>
        entries[p := PinnedAs(entries[p], clock)]
    else entries + [CachedExpert(layer, id, 1, clock, 1, false, clock, truth((layer, id)))]
  }

  function Bound(entries: seq<CachedExpert>, truth: ExpertKey -> ExpertValue, layer: nat, ids: seq<nat>,
                 hits: seq<bool>, clock: nat)
    : seq<CachedExpert>
    requires |hits| == |ids|
    decreases |ids|
  {
    if ids == [] then entries
    else Bound(BindOne(entries, truth, layer, ids[0], hits[0], clock + 1), truth, layer, ids[1..], hits[1..], clock + 1)
  }

  lemma BoundNext(entries: seq<CachedExpert>, truth: ExpertKey -> ExpertValue, layer: nat, ids: seq<nat>,
                  hits: seq<bool>, k: nat, clock: nat)
    requires |hits| == |ids| && k < |ids|
    ensures Bound(entries, truth, layer, ids[k..], hits[k..], clock)
         == Bound(BindOne(entries, truth, layer, ids[k], hits[k], clock + 1), truth, layer, ids[k + 1..],
           hits[k + 1..], clock + 1)
  {
    hide BindOne;
    assert ids[k..][1..] == ids[k + 1..] && hits[k..][1..] == hits[k + 1..];
  }

  lemma BoundDone(entries: seq<CachedExpert>, truth: ExpertKey -> ExpertValue, layer: nat, clock: nat)
    ensures Bound(entries, truth, layer, [], [], clock) == entries
  {
  }

  /** What a prefetch thread delivers: of its experts, those that could be read. */
  function Deliveries(layer: nat, experts: seq<nat>, issuedClock: nat, loader: Loader): seq<PrefetchDelivery> {
    if experts == [] then []
    else
      var id := experts[|experts| - 1];
      Deliveries(layer, experts[..|experts| - 1], issuedClock, loader)
      + match loader.Load((layer, id))
        case None => []
        case Some(value) => [PrefetchDelivery(layer, id, value, issuedClock)]
  }

  /** The last demand of each of a route's experts. */
  function DemandedAt(last: map<ExpertKey, nat>, layer: nat, ids: seq<nat>, clock: nat): map<ExpertKey, nat> {
    if ids == [] then last else DemandedAt(last, layer, ids[..|ids| - 1], clock)[(layer, ids[|ids| - 1]) := clock]
  }

  /** Which of `ids` are resident. */
  function HitMask(entries: seq<CachedExpert>, layer: nat, ids: seq<nat>): (hits: seq<bool>)
    ensures |hits| == |ids|
  {
    seq(|ids|, i requires 0 <= i < |ids| => First(entries, (layer, ids[i])).Some?)
  }

  // ------------------------------------------------------------------------
  // What releasing makes of it

  function WithPins(entries: seq<CachedExpert>, p: nat, pinCount: nat): seq<CachedExpert>
    requires p < |entries|
  {
    entries[p := entries[p].(pinCount := pinCount)]
  }

  /** Each expert's first entry gives one pin back; `None` when one is absent. */
  function Released(entries: seq<CachedExpert>, layer: nat, ids: seq<nat>): Option<seq<CachedExpert>>
    decreases |ids|
  {
    if ids == [] then Some(entries)
    else
      match First(entries, (layer, ids[0]))
      case None => None
      case Some(p) => Released(WithPins(entries, p, SaturatingSub(entries[p].pinCount, 1)), layer, ids[1..])
  }

  /** Releasing a plan whose pins are in order leaves none. */
  lemma {:induction false} ReleasedIsUnpinned(entries: seq<CachedExpert>, layer: nat, ids: seq<nat>)
    requires PinnedExactly(entries, layer, ids) && Distinct(ids)
    ensures Released(entries, layer, ids).Some? && Unpinned(Released(entries, layer, ids).value)
    decreases |ids|
  {
    hide PinnedAt, Unpinned, First;
    if ids == [] {
      NothingPlanned(entries, layer);
    } else {
      FirstIs(entries, (layer, ids[0]));
      var p := First(entries, (layer, ids[0])).value;
      var next := WithPins(entries, p, SaturatingSub(entries[p].pinCount, 1));
      ReleaseOne(entries, next[p], p, layer, ids);
      ReleasedIsUnpinned(next, layer, ids[1..]);
    }
  }

  /** Only an absent expert makes a release fail. */
  lemma {:induction false} ResidentIsReleased(entries: seq<CachedExpert>, layer: nat, ids: seq<nat>)
    requires ResidentAll(entries, layer, ids)
    ensures Released(entries, layer, ids).Some?
    decreases |ids|
  {
    hide First;
    if ids != [] {
      FirstIs(entries, (layer, ids[0]));
      var p := First(entries, (layer, ids[0])).value;
      var next := WithPins(entries, p, SaturatingSub(entries[p].pinCount, 1));
      forall id | id in ids[1..] ensures First(next, (layer, id)).Some? {
        FirstSameKeys(entries, next, (layer, id));
      }
      ResidentIsReleased(next, layer, ids[1..]);
    }
  }

  /** An entry a lookup does not find keeps its pin through any release. */
  lemma {:induction false} HiddenPinStays(entries: seq<CachedExpert>, layer: nat, ids: seq<nat>, p: nat)
    requires p < |entries| && First(entries, entries[p].Key()) != Some(p) && Released(entries, layer, ids).Some?
    ensures var after := Released(entries, layer, ids).value; |after| == |entries| && after[p] == entries[p]
    decreases |ids|
  {
    if ids != [] {
      FirstIs(entries, (layer, ids[0]));
      var q := First(entries, (layer, ids[0])).value;
      var next := WithPins(entries, q, SaturatingSub(entries[q].pinCount, 1));
      FirstSameKeys(entries, next, entries[p].Key());
      HiddenPinStays(next, layer, ids[1..], p);
    }
  }
}
