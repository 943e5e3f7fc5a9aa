/** What the memory broker accounts for: the leases granted so far, the total and
    the per-owner breakdown they stand for, and the highest total ever reached. */
module MemoryLedger {
  import opened Wrappers

  const U64_MAX: nat := 0xFFFF_FFFF_FFFF_FFFF

  datatype Owner =
    | Core | GdnState | ContextHot | ContextCold | ExpertPinned
    | ExpertProbation | IoStaging | Scratch | ServerReserve | HelperModel

  datatype OwnerReserved = OwnerReserved(
    core: nat, gdnState: nat, contextHot: nat, contextCold: nat, expertPinned: nat,
    expertProbation: nat, ioStaging: nat, scratch: nat, serverReserve: nat, helperModel: nat)
  {
    function Get(owner: Owner): nat {
      match owner
      case Core => core
      case GdnState => gdnState
      case ContextHot => contextHot
      case ContextCold => contextCold
      case ExpertPinned => expertPinned
      case ExpertProbation => expertProbation
      case IoStaging => ioStaging
      case Scratch => scratch
      case ServerReserve => serverReserve
      case HelperModel => helperModel
    }

    function Put(owner: Owner, bytes: nat): OwnerReserved {
      match owner
      case Core => this.(core := bytes)
      case GdnState => this.(gdnState := bytes)
      case ContextHot => this.(contextHot := bytes)
      case ContextCold => this.(contextCold := bytes)
      case ExpertPinned => this.(expertPinned := bytes)
      case ExpertProbation => this.(expertProbation := bytes)
      case IoStaging => this.(ioStaging := bytes)
      case Scratch => this.(scratch := bytes)
      case ServerReserve => this.(serverReserve := bytes)
      case HelperModel => this.(helperModel := bytes)
    }

    function Add(owner: Owner, bytes: nat): OwnerReserved {
      Put(owner, SaturatingAdd(Get(owner), bytes))
    }

    function Sub(owner: Owner, bytes: nat): OwnerReserved {
      Put(owner, SaturatingSub(Get(owner), bytes))
    }

    function Total(): nat {
      core + gdnState + contextHot + contextCold + expertPinned
      + expertProbation + ioStaging + scratch + serverReserve + helperModel
    }
  }

  const NOTHING := OwnerReserved(0, 0, 0, 0, 0, 0, 0, 0, 0, 0)

  function SaturatingAdd(a: nat, b: nat): (sum: nat)
    ensures sum == a + b || (sum == 0xFFFF_FFFF_FFFF_FFFF && sum < a + b)
  {
    if a + b > U64_MAX then U64_MAX else a + b
  }

  function Max(a: nat, b: nat): nat {
    if a < b then b else a
  }

  predicate PowerOfTwo(n: nat) {
    n == 1 || (n > 1 && n % 2 == 0 && PowerOfTwo(n / 2))
  }

  lemma PutThenGet(o: OwnerReserved, owner: Owner, bytes: nat, other: Owner)
    ensures o.Put(owner, bytes).Get(other) == if other == owner then bytes else o.Get(other)
  {
  }

  // ------------------------------------------------------------------------
  // Leases and the log of changes to them

  datatype Lease = Lease(owner: Owner, bytes: nat, live: bool)

  /** `Grant` creates the next lease; `Release(id)` ends lease `id`. */
  datatype Effect = Grant(owner: Owner, bytes: nat) | Release(id: nat)

  function Leases(log: seq<Effect>): seq<Lease> {
    if log == [] then []
    else
      var leases := Leases(log[..|log| - 1]);
      match log[|log| - 1]
      case Grant(owner, bytes) => leases + [Lease(owner, bytes, true)]
      case Release(id) => if id < |leases| then leases[id := leases[id].(live := false)] else leases
  }

  function Weight(lease: Lease): nat {
    if lease.live then lease.bytes else 0
  }

  /** The bytes of the live leases. */
  function Charged(leases: seq<Lease>): nat {
    if leases == [] then 0 else Charged(leases[..|leases| - 1]) + Weight(leases[|leases| - 1])
  }

  function OwnerWeight(lease: Lease, owner: Owner): nat {
    if lease.owner == owner then Weight(lease) else 0
  }

  /** The bytes of one owner's live leases. */
  function ChargedTo(leases: seq<Lease>, owner: Owner): nat {
    if leases == [] then 0 else ChargedTo(leases[..|leases| - 1], owner) + OwnerWeight(leases[|leases| - 1], owner)
  }

  ghost predicate Shows(o: OwnerReserved, leases: seq<Lease>) {
    forall owner: Owner :: ShowsOwner(o, leases, owner)
  }

  ghost predicate ShowsOwner(o: OwnerReserved, leases: seq<Lease>, owner: Owner) {
    o.Get(owner) == ChargedTo(leases, owner)
  }

  /** The highest total over the whole history. */
  function Peak(log: seq<Effect>): nat {
    if log == [] then 0 else Max(Peak(log[..|log| - 1]), Charged(Leases(log)))
  }

  predicate LegalNext(log: seq<Effect>, e: Effect, budget: nat) {
    var leases := Leases(log);
    match e
    case Grant(_, bytes) => 0 < bytes && Charged(leases) + bytes <= budget
    case Release(id) => id < |leases| && leases[id].live
  }

  /** Every grant fitted the budget when it was made and every release ended a
      live lease. */
  predicate Legal(log: seq<Effect>, budget: nat) {
    log == [] || (Legal(log[..|log| - 1], budget) && LegalNext(log[..|log| - 1], log[|log| - 1], budget))
  }

  lemma {:induction false} ChargedUpdate(leases: seq<Lease>, k: nat, lease: Lease)
    requires k < |leases|
    ensures Charged(leases[k := lease]) == Charged(leases) - Weight(leases[k]) + Weight(lease)
  {
    var n := |leases| - 1;
    if k == n {
      assert leases[k := lease][..n] == leases[..n];
    } else {
      ChargedUpdate(leases[..n], k, lease);
      assert leases[k := lease][..n] == leases[..n][k := lease];
    }
  }

  lemma {:induction false} ChargedToUpdate(leases: seq<Lease>, k: nat, lease: Lease, owner: Owner)
    requires k < |leases|
    ensures ChargedTo(leases[k := lease], owner)
         == ChargedTo(leases, owner) - OwnerWeight(leases[k], owner) + OwnerWeight(lease, owner)
  {
    var n := |leases| - 1;
    if k == n {
      assert leases[k := lease][..n] == leases[..n];
    } else {
      ChargedToUpdate(leases[..n], k, lease, owner);
      assert leases[k := lease][..n] == leases[..n][k := lease];
    }
  }

  lemma {:induction false} LeaseIsCharged(leases: seq<Lease>, k: nat)
    requires k < |leases|
    ensures Weight(leases[k]) <= Charged(leases)
    ensures OwnerWeight(leases[k], leases[k].owner) <= ChargedTo(leases, leases[k].owner)
  {
    if k < |leases| - 1 {
      LeaseIsCharged(leases[..|leases| - 1], k);
    }
  }

  lemma {:induction false} OwnerIsWithinTotal(leases: seq<Lease>, owner: Owner)
    ensures ChargedTo(leases, owner) <= Charged(leases)
  {
    if leases != [] {
      OwnerIsWithinTotal(leases[..|leases| - 1], owner);
    }
  }

  /** A breakdown that shows the leases sums to their total. */
  lemma {:induction false} BreakdownSums(o: OwnerReserved, leases: seq<Lease>)
    requires Shows(o, leases)
    ensures o.Total() == Charged(leases)
  {
    SumOverOwners(leases);
    assert ShowsOwner(o, leases, Core) && ShowsOwner(o, leases, GdnState) && ShowsOwner(o, leases, ContextHot);
    assert ShowsOwner(o, leases, ContextCold) && ShowsOwner(o, leases, ExpertPinned);
    assert ShowsOwner(o, leases, ExpertProbation) && ShowsOwner(o, leases, IoStaging);
    assert ShowsOwner(o, leases, Scratch) && ShowsOwner(o, leases, ServerReserve);
    assert ShowsOwner(o, leases, HelperModel);
  }

  lemma {:induction false} SumOverOwners(leases: seq<Lease>)
    ensures ChargedTo(leases, Core) + ChargedTo(leases, GdnState) + ChargedTo(leases, ContextHot)
          + ChargedTo(leases, ContextCold) + ChargedTo(leases, ExpertPinned)
          + ChargedTo(leases, ExpertProbation) + ChargedTo(leases, IoStaging) + ChargedTo(leases, Scratch)
          + ChargedTo(leases, ServerReserve) + ChargedTo(leases, HelperModel) == Charged(leases)
  {
    if leases != [] {
      SumOverOwners(leases[..|leases| - 1]);
    }
  }

  // ------------------------------------------------------------------------
  // One more effect

  lemma LeasesGrow(log: seq<Effect>, e: Effect)
    ensures e.Grant? ==> Leases(log + [e]) == Leases(log) + [Lease(e.owner, e.bytes, true)]
    ensures e.Release? && e.id < |Leases(log)| ==>
      (Leases(log + [e]) == Leases(log)[e.id := Leases(log)[e.id].(live := false)])
  {
    assert (log + [e])[..|log|] == log;
  }

  lemma LegalGrows(log: seq<Effect>, e: Effect, budget: nat)
    requires Legal(log, budget) && LegalNext(log, e, budget)
    ensures Legal(log + [e], budget)
  {
    assert (log + [e])[..|log|] == log;
  }

  lemma PeakGrows(log: seq<Effect>, e: Effect)
    ensures Peak(log + [e]) == Max(Peak(log), Charged(Leases(log + [e])))
  {
    assert (log + [e])[..|log|] == log;
  }

  lemma ReleaseKeepsPeak(log: seq<Effect>, id: nat)
    requires id < |Leases(log)| && Leases(log)[id].live
    ensures Peak(log + [Release(id)]) == Peak(log)
  {
    PeakGrows(log, Release(id));
    ReleaseDischarges(log, id, NOTHING);
    PeakIsAbove(log);
  }

  lemma PeakIsAbove(log: seq<Effect>)
    ensures Charged(Leases(log)) <= Peak(log)
  {
  }

  lemma {:induction false} PeakIsMonotone(log: seq<Effect>, n: nat)
    requires n <= |log|
    ensures Peak(log[..n]) <= Peak(log)
  {
    if n < |log| {
      PeakIsMonotone(log[..|log| - 1], n);
      assert log[..|log| - 1][..n] == log[..n];
    } else {
      assert log[..n] == log;
    }
  }

  /** Granting adds the bytes to the total and to one owner. */
  lemma GrantCharges(log: seq<Effect>, owner: Owner, bytes: nat, o: OwnerReserved)
    ensures Charged(Leases(log + [Grant(owner, bytes)])) == Charged(Leases(log)) + bytes
    ensures Shows(o, Leases(log)) ==> Shows(o.Put(owner, o.Get(owner) + bytes), Leases(log + [Grant(owner, bytes)]))
  {
    LeasesGrow(log, Grant(owner, bytes));
    var was := Leases(log);
    var now := was + [Lease(owner, bytes, true)];
    assert now[..|was|] == was;
    if Shows(o, was) {
      var after := o.Put(owner, o.Get(owner) + bytes);
      forall w: Owner ensures ShowsOwner(after, now, w) {
        assert ShowsOwner(o, was, w);
        PutThenGet(o, owner, o.Get(owner) + bytes, w);
      }
    }
  }

  /** Releasing a live lease takes exactly its bytes off, from the total and from
      its owner, so neither subtraction reaches below zero. */
  lemma ReleaseDischarges(log: seq<Effect>, id: nat, o: OwnerReserved)
    requires id < |Leases(log)| && Leases(log)[id].live
    ensures var lease := Leases(log)[id];
      && lease.bytes <= Charged(Leases(log))
      && Charged(Leases(log + [Release(id)])) == Charged(Leases(log)) - lease.bytes
      && (Shows(o, Leases(log)) ==>
           (lease.bytes <= o.Get(lease.owner)
            && Shows(o.Put(lease.owner, o.Get(lease.owner) - lease.bytes), Leases(log + [Release(id)]))))
  {
    hide Charged, ChargedTo, Leases;
    LeasesGrow(log, Release(id));
    var was := Leases(log);
    var lease := was[id];
    ChargedUpdate(was, id, lease.(live := false));
    LeaseIsCharged(was, id);
    if Shows(o, was) {
      assert ShowsOwner(o, was, lease.owner);
      var after := o.Put(lease.owner, o.Get(lease.owner) - lease.bytes);
      var now := was[id := lease.(live := false)];
      forall w: Owner ensures ShowsOwner(after, now, w) {
        ReleaseShowsOwner(was, id, o, w);
      }
    }
  }

  lemma ReleaseShowsOwner(was: seq<Lease>, id: nat, o: OwnerReserved, w: Owner)
    requires id < |was| && was[id].live && was[id].bytes <= o.Get(was[id].owner)
    requires ShowsOwner(o, was, w)
    ensures ShowsOwner(o.Put(was[id].owner, o.Get(was[id].owner) - was[id].bytes), was[id := was[id].(live := false)],
      w)
  {
    hide ChargedTo;
    PutThenGet(o, was[id].owner, o.Get(was[id].owner) - was[id].bytes, w);
    ChargedToUpdate(was, id, was[id].(live := false), w);
  }

  /** Bytes granted less bytes released by the effects from `from` on. */
  function Net(log: seq<Effect>, from: nat): int
    requires from <= |log|
  {
    if |log| == from then 0
    else
      var before := log[..|log| - 1];
      Net(before, from)
      + match log[|log| - 1]
        case Grant(_, bytes) => bytes
        case Release(id) => if id < |Leases(before)| then 0 - Leases(before)[id].bytes else 0
  }

  /** The total moves by just what was granted and released. */
  lemma {:induction false} NetIsTheChange(log: seq<Effect>, from: nat, budget: nat)
    requires Legal(log, budget) && from <= |log|
    ensures Charged(Leases(log)) == Charged(Leases(log[..from])) + Net(log, from)
  {
    hide Charged, Leases;
    if |log| == from {
      assert log[..from] == log;
    } else {
      var before := log[..|log| - 1];
      var e := log[|log| - 1];
      assert log == before + [e] && before[..from] == log[..from];
      NetIsTheChange(before, from, budget);
      match e
      case Grant(owner, bytes) => GrantCharges(before, owner, bytes, NOTHING);
      case Release(id) => ReleaseDischarges(before, id, NOTHING);
    }
  }

  /** No legal history is ever over budget, not even at its peak. */
  lemma {:induction false} LegalStaysInBudget(log: seq<Effect>, budget: nat)
    requires Legal(log, budget)
    ensures Charged(Leases(log)) <= budget && Peak(log) <= budget
  {
    if log != [] {
      var before := log[..|log| - 1];
      var e := log[|log| - 1];
      assert log == before + [e];
      LegalStaysInBudget(before, budget);
      match e
      case Grant(owner, bytes) => GrantCharges(before, owner, bytes, NOTHING);
      case Release(id) => ReleaseDischarges(before, id, NOTHING);
    }
  }
}

/** The broker as one thread sees it: the same accounts, kept by uninterrupted
    calls. */
module MemoryBroker {
  import opened Wrappers
  import opened MemoryLedger

  /** Proof of a reservation. */
  datatype MemoryLease = MemoryLease(owner: Owner, bytes: nat)

  datatype BudgetExceeded = BudgetExceeded(requested: nat, available: nat)

  class MemoryBroker {
    const budget: nat
    var reserved: nat
    var byOwner: OwnerReserved
    var peak: nat
    ghost var log: seq<Effect>

    ghost predicate Valid()
      reads this
    {
      && budget <= U64_MAX && Legal(log, budget)
      && reserved == Charged(Leases(log))
      && Shows(byOwner, Leases(log))
      && peak == Peak(log)
    }

    constructor (budget: nat)
      requires budget <= U64_MAX
      ensures Valid() && this.budget == budget && log == []
    {
      this.budget := budget;
      reserved := 0;
      byOwner := NOTHING;
      peak := 0;
      log := [];
      new;
      forall owner: Owner ensures ShowsOwner(NOTHING, [], owner) {
      }
    }

    /** A lease is granted exactly when the request is well formed and fits what
        is left. */
    method Reserve(owner: Owner, bytes: nat, alignment: nat)
        returns (r: Result<MemoryLease, BudgetExceeded>, ghost id: nat)
      requires Valid()
      modifies this
      ensures Valid()
      ensures r.Success? <==> 0 < bytes && alignment != 0 && PowerOfTwo(alignment) && old(reserved) + bytes <= budget
      ensures r.Success? ==>
        (log == old(log) + [Grant(owner, bytes)] && r.value == MemoryLease(owner, bytes) && id == |Leases(old(log))|)
      ensures r.Failure? ==>
        (old(reserved) <= budget && log == old(log) && r.error == BudgetExceeded(bytes, budget - old(reserved))
         && reserved == old(reserved) && byOwner == old(byOwner) && peak == old(peak))
    {
      hide Legal, Leases, Charged, Peak, Shows, PowerOfTwo, OwnerReserved.Get, OwnerReserved.Put;
      LegalStaysInBudget(log, budget);
      if bytes == 0 || alignment == 0 || !PowerOfTwo(alignment) {
        return Failure(BudgetExceeded(bytes, SaturatingSub(budget, reserved))), 0;
      }
      var available := SaturatingSub(budget, reserved);
      if bytes > available {
        return Failure(BudgetExceeded(bytes, available)), 0;
      }
      GrantCharges(log, owner, bytes, byOwner);
      LegalGrows(log, Grant(owner, bytes), budget) by {
        GrantIsLegal(log, owner, bytes, budget);
      }
      PeakGrows(log, Grant(owner, bytes));
      RoomForOwner(byOwner, Leases(log), owner);
      r, id := Success(MemoryLease(owner, bytes)), |Leases(log)|;
      reserved := reserved + bytes;
      byOwner := byOwner.Add(owner, bytes);
      peak := Max(peak, reserved);
      log := log + [Grant(owner, bytes)];
    }

    /** Dropping a live lease returns its bytes to the total and to its owner,
        and leaves the peak. */
    method Drop(lease: MemoryLease, ghost id: nat)
      requires Valid()
      requires id < |Leases(log)| && Leases(log)[id] == Lease(lease.owner, lease.bytes, true)
      modifies this
      ensures Valid() && log == old(log) + [Release(id)]
      ensures reserved == old(reserved) - lease.bytes && peak == old(peak)
    {
      hide Legal, Leases, Charged, Peak, Shows, OwnerReserved.Get, OwnerReserved.Put;
      ReleaseDischarges(log, id, byOwner);
      LegalGrows(log, Release(id), budget);
      ReleaseKeepsPeak(log, id);
      reserved := SaturatingSub(reserved, lease.bytes);
      byOwner := byOwner.Sub(lease.owner, lease.bytes);
      log := log + [Release(id)];
    }

    /** Uninterrupted, a snapshot's parts agree. */
    method Snapshot() returns (total: nat, owners: OwnerReserved, highest: nat)
      requires Valid()
      ensures total == reserved && owners == byOwner && highest == peak
      ensures owners.Total() == total <= highest <= budget
    {
      BreakdownSums(byOwner, Leases(log));
      LegalStaysInBudget(log, budget);
      PeakIsAbove(log);
      total := reserved;
      owners := byOwner;
      highest := peak;
    }
  }

  lemma GrantIsLegal(log: seq<Effect>, owner: Owner, bytes: nat, budget: nat)
    requires 0 < bytes && Charged(Leases(log)) + bytes <= budget
    ensures LegalNext(log, Grant(owner, bytes), budget)
  {
  }

  lemma RoomForOwner(o: OwnerReserved, leases: seq<Lease>, owner: Owner)
    requires Shows(o, leases)
    ensures o.Get(owner) <= Charged(leases)
  {
    assert ShowsOwner(o, leases, owner);
    OwnerIsWithinTotal(leases, owner);
  }
}
