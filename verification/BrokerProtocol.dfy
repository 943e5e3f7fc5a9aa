/** The memory broker under concurrency. Any number of threads reserve, drop and
    take snapshots; each lock, unlock, read and write is a step of its own, and
    steps of different threads interleave freely. */
module BrokerProtocol {
  import opened Wrappers
  import opened MemoryLedger

  /** A change under way. A drop carries what its lease carries. */
  datatype Job = Reserving(owner: Owner, bytes: nat) | Dropping(owner: Owner, bytes: nat, id: nat)

  /** Where the change is; `reserved` is locked from `Check` to `Unlock` and
      `by_owner` from `UpdateOwner` to `UnlockOwner`. */
  datatype Phase = Lock | Check | LockOwner | UpdateOwner | UnlockOwner | RaisePeak | Unlock

  /** A snapshot is taken for a caller, or twice over to word the error of an
      ill-formed request. */
  datatype Why = ForCaller | ErrorBudget(requested: nat) | ErrorReserved(requested: nat)

  /** `at` counts the effects logged when `reserved` was read. */
  datatype Look =
    | LookLock
    | LookRead
    | LookUnlock(reserved: nat, at: nat)
    | LookLockOwner(reserved: nat, at: nat)
    | LookReadOwner(reserved: nat, at: nat)
    | LookUnlockOwner(reserved: nat, at: nat, byOwner: OwnerReserved, ownerAt: nat)
    | LookPeak(reserved: nat, at: nat, byOwner: OwnerReserved, ownerAt: nat)

  datatype Snapshot = Snapshot(budget: nat, reserved: nat, peak: nat, byOwner: OwnerReserved)

  datatype Outcome =
    | Nothing
    | Granted(id: nat)
    | Refused(requested: nat, available: nat)
    | Dropped
    | Taken(snapshot: Snapshot, at: nat, ownerAt: nat, peakAt: nat)

  /** `id` is the lease a change has charged, from the moment it is charged. */
  datatype Thread =
    | Idle(last: Outcome)
    | Changing(job: Job, phase: Phase, id: nat)
    | Looking(why: Why, look: Look)

  /** `held` are the leases in callers' hands; `log` lists every change of
      `reserved` so far. */
  datatype Broker = Broker(
    budget: nat, reserved: nat, reservedBy: Option<nat>, byOwner: OwnerReserved, ownerBy: Option<nat>,
    peak: nat, threads: seq<Thread>, held: set<nat>, log: seq<Effect>)

  datatype Call = Reserve(owner: Owner, bytes: nat, alignment: nat) | Drop(id: nat) | TakeSnapshot

  datatype Event = Start(thread: nat, call: Call) | Step(thread: nat)

  function Init(budget: nat, threads: nat): Broker {
    Broker(budget, 0, None, NOTHING, None, 0, seq(threads, _ => Idle(Nothing)), {}, [])
  }

  // ------------------------------------------------------------------------
  // Steps

  /** An idle thread makes a call. Only a lease in hand can be dropped, and the
      call takes it out of hand. */
  function Begin(s: Broker, i: nat, call: Call): Option<Broker>
    requires i < |s.threads|
  {
    if !s.threads[i].Idle? then None
    else
      match call
      case Reserve(owner, bytes, alignment) =>
        if bytes == 0 || alignment == 0 || !PowerOfTwo(alignment) then
          Some(At(s, i, Looking(ErrorBudget(bytes), LookLock)))
        else Some(At(s, i, Changing(Reserving(owner, bytes), Lock, 0)))
      case Drop(id) =>
        if id in s.held && id < |Leases(s.log)| then
          var lease := Leases(s.log)[id];
          Some(At(s, i, Changing(Dropping(lease.owner, lease.bytes, id), Lock, id)).(held := s.held - {id}))
        else None
      case TakeSnapshot => Some(At(s, i, Looking(ForCaller, LookLock)))
  }

  function At(s: Broker, i: nat, t: Thread): Broker
    requires i < |s.threads|
  {
    s.(threads := s.threads[i := t])
  }

  /** The next step of a busy thread; `None` while it waits for a mutex. */
  function Advance(s: Broker, i: nat): Option<Broker>
    requires i < |s.threads|
  {
    match s.threads[i]
    case Idle(_) => None
    case Changing(job, phase, id) => AdvanceChange(s, i, job, phase, id)
    case Looking(why, look) => AdvanceLook(s, i, why, look)
  }

  function AdvanceChange(s: Broker, i: nat, job: Job, phase: Phase, id: nat): Option<Broker>
    requires i < |s.threads|
  {
    match phase
    case Lock =>
      if s.reservedBy != None then None
      else Some(At(s, i, Changing(job, Check, id)).(reservedBy := Some(i)))
    case Check => Some(Change(s, i, job, id))
    case LockOwner =>
      if s.ownerBy != None then None
      else Some(At(s, i, Changing(job, UpdateOwner, id)).(ownerBy := Some(i)))
    case UpdateOwner =>
      Some(At(s, i, Changing(job, UnlockOwner, id)).(
             byOwner := if job.Reserving? then s.byOwner.Add(job.owner, job.bytes)
               else s.byOwner.Sub(job.owner, job.bytes)))
    case UnlockOwner =>
      Some(At(s, i, Changing(job, if job.Reserving? then RaisePeak else Unlock, id)).(ownerBy := None))
    case RaisePeak => Some(At(s, i, Changing(job, Unlock, id)).(peak := Max(s.peak, s.reserved)))
    case Unlock =>
      if job.Reserving? then Some(At(s, i, Idle(Granted(id))).(reservedBy := None, held := s.held + {id}))
      else Some(At(s, i, Idle(Dropped)).(reservedBy := None))
  }

  /** Under the lock: refuse, or change `reserved`. */
  function Change(s: Broker, i: nat, job: Job, id: nat): Broker
    requires i < |s.threads|
  {
    match job
    case Reserving(owner, bytes) =>
      var available := SaturatingSub(s.budget, s.reserved);
      if bytes > available then At(s, i, Idle(Refused(bytes, available))).(reservedBy := None)
      else
        At(s, i, Changing(job, LockOwner, |Leases(s.log)|)).(
          reserved := s.reserved + bytes, log := s.log + [Grant(owner, bytes)])
    case Dropping(owner, bytes, lease) =>
      At(s, i, Changing(job, LockOwner, id)).(
        reserved := SaturatingSub(s.reserved, bytes), log := s.log + [Release(lease)])
  }

  function AdvanceLook(s: Broker, i: nat, why: Why, look: Look): Option<Broker>
    requires i < |s.threads|
  {
    match look
    case LookLock =>
      if s.reservedBy != None then None
      else Some(At(s, i, Looking(why, LookRead)).(reservedBy := Some(i)))
    case LookRead => Some(At(s, i, Looking(why, LookUnlock(s.reserved, |s.log|))))
    case LookUnlock(reserved, at) => Some(At(s, i, Looking(why, LookLockOwner(reserved, at))).(reservedBy := None))
    case LookLockOwner(reserved, at) =>
      if s.ownerBy != None then None
      else Some(At(s, i, Looking(why, LookReadOwner(reserved, at))).(ownerBy := Some(i)))
    case LookReadOwner(reserved, at) =>
      Some(At(s, i, Looking(why, LookUnlockOwner(reserved, at, s.byOwner, OwnerAt(s)))))
    case LookUnlockOwner(reserved, at, byOwner, ownerAt) =>
      Some(At(s, i, Looking(why, LookPeak(reserved, at, byOwner, ownerAt))).(ownerBy := None))
    case LookPeak(reserved, at, byOwner, ownerAt) =>
      Some(At(s, i, match why
        case ForCaller => Idle(Taken(Snapshot(s.budget, reserved, s.peak, byOwner), at, ownerAt, PeakAt(s)))
        case ErrorBudget(requested) => Looking(ErrorReserved(requested), LookLock)
        case ErrorReserved(requested) => Idle(Refused(requested, SaturatingSub(s.budget, reserved)))))
  }

  /** How many of the logged effects `by_owner` already shows: all but the one a
      change in progress has yet to enter. */
  function OwnerAt(s: Broker): nat {
    if Pending(s, {LockOwner, UpdateOwner}) then |s.log| - 1 else |s.log|
  }

  /** How many of the logged effects `peak` has been raised for. */
  function PeakAt(s: Broker): nat {
    if Pending(s, {LockOwner, UpdateOwner, UnlockOwner, RaisePeak}) then |s.log| - 1 else |s.log|
  }

  predicate Pending(s: Broker, phases: set<Phase>) {
    && s.reservedBy.Some? && s.reservedBy.value < |s.threads| && s.log != []
    && var t := s.threads[s.reservedBy.value];
       t.Changing? && t.phase in phases
  }

  function Next(s: Broker, e: Event): Option<Broker> {
    if e.thread >= |s.threads| then None
    else
      match e
      case Start(i, call) => Begin(s, i, call)
      case Step(i) => Advance(s, i)
  }

  /** Runs a schedule; events that are not enabled are passed over. */
  function Run(s: Broker, schedule: seq<Event>): Broker {
    if schedule == [] then s
    else
      var before := Run(s, schedule[..|schedule| - 1]);
      match Next(before, schedule[|schedule| - 1])
      case Some(after) => after
      case None => before
  }

  // ------------------------------------------------------------------------
  // The invariant

  predicate HoldsReserved(t: Thread) {
    match t
    case Idle(_) => false
    case Changing(_, phase, _) => phase != Lock
    case Looking(_, look) => look.LookRead? || look.LookUnlock?
  }

  predicate HoldsOwner(t: Thread) {
    match t
    case Idle(_) => false
    case Changing(_, phase, _) => phase == UpdateOwner || phase == UnlockOwner
    case Looking(_, look) => look.LookReadOwner? || look.LookUnlockOwner?
  }

  /** The lease a thread is working on, while that lease is live. */
  function Working(t: Thread): Option<nat> {
    if !t.Changing? then None
    else if t.job.Dropping? then (if t.phase == Lock || t.phase == Check then Some(t.id) else None)
    else if t.phase == Lock || t.phase == Check then None
    else Some(t.id)
  }

  ghost predicate LocksMatch(s: Broker) {
    && (forall i :: 0 <= i < |s.threads| ==> LockMatches(s, i))
    && (s.reservedBy.Some? ==> s.reservedBy.value < |s.threads|)
    && (s.ownerBy.Some? ==> s.ownerBy.value < |s.threads|)
  }

  predicate LockMatches(s: Broker, i: nat)
    requires i < |s.threads|
  {
    && (HoldsReserved(s.threads[i]) <==> s.reservedBy == Some(i))
    && (HoldsOwner(s.threads[i]) <==> s.ownerBy == Some(i))
  }

  /** The three accounts agree with the log, each up to the effect it has yet to
      be told of. */
  ghost predicate AccountsMatch(s: Broker) {
    && s.budget <= U64_MAX
    && Legal(s.log, s.budget)
    && s.reserved == Charged(Leases(s.log))
    && Shows(s.byOwner, Leases(s.log[..OwnerAt(s)]))
    && s.peak == Peak(s.log[..PeakAt(s)])
  }

  /** What the last effect is while a change is in progress. */
  ghost predicate ChangeIsLast(s: Broker, t: Thread) {
    t.Changing? && t.phase != Lock && t.phase != Check ==>
      (&& s.log != []
       && match t.job
          case Reserving(owner, bytes) => s.log[|s.log| - 1] == Grant(owner, bytes)
          case Dropping(_, _, id) =>
            var was := Leases(s.log[..|s.log| - 1]);
            s.log[|s.log| - 1] == Release(id) && id < |was| && was[id] == Lease(t.job.owner, t.job.bytes, true)
            && t.phase != RaisePeak)
  }

  ghost predicate LeaseOk(s: Broker, t: Thread) {
    && (Working(t).Some? ==>
          (t.id < |Leases(s.log)| && Leases(s.log)[t.id] == Lease(t.job.owner, t.job.bytes, true) && t.id !in s.held))
    && (t.Changing? && t.job.Dropping? ==> t.id == t.job.id)
    && (t.Changing? && t.job.Reserving? ==> t.job.bytes > 0)
  }

  ghost predicate Handled(s: Broker, id: nat) {
    id in s.held || exists i: nat :: WorksOn(s, i, id)
  }

  predicate WorksOn(s: Broker, i: nat, id: nat) {
    i < |s.threads| && Working(s.threads[i]) == Some(id)
  }

  /** No lease leaks: a live lease is in hand, or some thread is about to put it
      in hand or to drop it. */
  ghost predicate NothingLeaks(s: Broker) {
    forall id :: 0 <= id < |Leases(s.log)| && Leases(s.log)[id].live ==> Handled(s, id)
  }

  ghost predicate LeasesOk(s: Broker) {
    && (forall id :: id in s.held ==> HeldOk(s, id))
    && (forall i :: 0 <= i < |s.threads| ==> LeaseOk(s, s.threads[i]))
    && (forall i, j :: 0 <= i < |s.threads| && 0 <= j < |s.threads| ==> Apart(s, i, j))
  }

  predicate HeldOk(s: Broker, id: nat) {
    id < |Leases(s.log)| && Leases(s.log)[id].live
  }

  predicate Apart(s: Broker, i: nat, j: nat)
    requires i < |s.threads| && j < |s.threads|
  {
    i != j && Working(s.threads[i]).Some? && Working(s.threads[j]).Some? ==> s.threads[i].id != s.threads[j].id
  }

  /** `reserved` was the total after the first `at` effects. */
  ghost predicate WasReserved(log: seq<Effect>, reserved: nat, at: nat) {
    at <= |log| && reserved == Charged(Leases(log[..at]))
  }

  ghost predicate WasByOwner(log: seq<Effect>, byOwner: OwnerReserved, ownerAt: nat) {
    ownerAt <= |log| && Shows(byOwner, Leases(log[..ownerAt]))
  }

  /** What a snapshot means: its three parts are the accounts after `at`,
      `ownerAt` and `peakAt` effects, the first of these the earliest. */
  ghost predicate WasTaken(log: seq<Effect>, snapshot: Snapshot, at: nat, ownerAt: nat, peakAt: nat) {
    && at <= ownerAt <= |log| && at <= peakAt <= |log|
    && WasReserved(log, snapshot.reserved, at)
    && WasByOwner(log, snapshot.byOwner, ownerAt)
    && snapshot.peak == Peak(log[..peakAt])
  }

  ghost predicate LookOk(log: seq<Effect>, ownerAt: nat, peakAt: nat, t: Thread) {
    match t
    case Idle(Taken(snapshot, at, ownAt, pkAt)) => WasTaken(log, snapshot, at, ownAt, pkAt)
    case Idle(_) => true
    case Changing(_, _, _) => true
    case Looking(_, LookLock) => true
    case Looking(_, LookRead) => true
    case Looking(_, LookUnlock(reserved, at)) => WasReserved(log, reserved, at) && at <= ownerAt && at <= peakAt
    case Looking(_, LookLockOwner(reserved, at)) => WasReserved(log, reserved, at) && at <= ownerAt && at <= peakAt
    case Looking(_, LookReadOwner(reserved, at)) => WasReserved(log, reserved, at) && at <= ownerAt && at <= peakAt
    case Looking(_, LookUnlockOwner(reserved, at, byOwner, ownAt)) =>
      WasReserved(log, reserved, at) && WasByOwner(log, byOwner, ownAt) && at <= ownAt && at <= peakAt
    case Looking(_, LookPeak(reserved, at, byOwner, ownAt)) =>
      WasReserved(log, reserved, at) && WasByOwner(log, byOwner, ownAt) && at <= ownAt && at <= peakAt
  }

  ghost predicate LooksOk(s: Broker) {
    forall i :: 0 <= i < |s.threads| ==> LookOk(s.log, OwnerAt(s), PeakAt(s), s.threads[i])
  }

  ghost predicate Inv(s: Broker) {
    && LocksMatch(s)
    && AccountsMatch(s)
    && (forall i :: 0 <= i < |s.threads| ==> ChangeIsLast(s, s.threads[i]))
    && LeasesOk(s)
    && NothingLeaks(s)
    && LooksOk(s)
  }

  // ------------------------------------------------------------------------
  // Every step keeps it

  /** A mutex changes hands as its holder's program says. */
  predicate Moved(before: Option<nat>, after: Option<nat>, i: nat, held: bool, holds: bool) {
    if held == holds then after == before
    else if holds then before == None && after == Some(i)
    else after == None
  }

  lemma StepsMoveLocks(s: Broker, e: Event)
    requires Next(s, e).Some?
    ensures var t := Next(s, e).value; var i := e.thread;
      && i < |s.threads| == |t.threads|
      && t.threads == s.threads[i := t.threads[i]]
      && Moved(s.reservedBy, t.reservedBy, i, HoldsReserved(s.threads[i]), HoldsReserved(t.threads[i]))
      && Moved(s.ownerBy, t.ownerBy, i, HoldsOwner(s.threads[i]), HoldsOwner(t.threads[i]))
  {
    hide Leases, OwnerAt, PeakAt, PowerOfTwo;
    var i := e.thread;
    match e
    case Start(_, call) =>
      var t := Begin(s, i, call).value;
    case Step(_) =>
      match s.threads[i]
      case Changing(job, phase, id) =>
        var t := AdvanceChange(s, i, job, phase, id).value;
      case Looking(why, look) =>
        var t := AdvanceLook(s, i, why, look).value;
  }

  lemma LocksKept(s: Broker, e: Event)
    requires LocksMatch(s) && Next(s, e).Some?
    ensures LocksMatch(Next(s, e).value)
  {
    StepsMoveLocks(s, e);
    var t := Next(s, e).value;
    forall j | 0 <= j < |t.threads| ensures LockMatches(t, j) {
      LockKept(s, t, e.thread, j);
    }
    assert LockMatches(s, e.thread);
    MovedInRange(s, t, e.thread);
  }

  lemma LockKept(s: Broker, t: Broker, i: nat, j: nat)
    requires LocksMatch(s) && i < |s.threads| == |t.threads| && j < |t.threads|
    requires t.threads == s.threads[i := t.threads[i]]
    requires Moved(s.reservedBy, t.reservedBy, i, HoldsReserved(s.threads[i]), HoldsReserved(t.threads[i]))
    requires Moved(s.ownerBy, t.ownerBy, i, HoldsOwner(s.threads[i]), HoldsOwner(t.threads[i]))
    ensures LockMatches(t, j)
  {
    hide HoldsReserved, HoldsOwner;
    assert LockMatches(s, i) && LockMatches(s, j);
  }

  lemma MovedInRange(s: Broker, t: Broker, i: nat)
    requires LocksMatch(s) && i < |s.threads| == |t.threads|
    requires Moved(s.reservedBy, t.reservedBy, i, HoldsReserved(s.threads[i]), HoldsReserved(t.threads[i]))
    requires Moved(s.ownerBy, t.ownerBy, i, HoldsOwner(s.threads[i]), HoldsOwner(t.threads[i]))
    ensures t.reservedBy.Some? ==> t.reservedBy.value < |t.threads|
    ensures t.ownerBy.Some? ==> t.ownerBy.value < |t.threads|
  {
  }

  /** Only the thread holding the `reserved` mutex changes the log, and it adds
      at most one effect. */
  lemma LogGrows(s: Broker, e: Event)
    requires Next(s, e).Some?
    ensures var t := Next(s, e).value;
      && t.budget == s.budget
      && (t.log == s.log || (t.log != [] && t.log[..|t.log| - 1] == s.log && HoldsReserved(s.threads[e.thread])))
  {
    hide Leases, OwnerAt, PeakAt, PowerOfTwo;
    var i := e.thread;
    match e
    case Start(_, call) =>
      var t := Begin(s, i, call).value;
    case Step(_) =>
      match s.threads[i]
      case Changing(job, phase, id) =>
        var t := AdvanceChange(s, i, job, phase, id).value;
        assert forall x :: (s.log + [x])[..|s.log|] == s.log;
      case Looking(why, look) =>
        var t := AdvanceLook(s, i, why, look).value;
  }

  lemma ChangeIsLastKept(s: Broker, e: Event)
    requires Inv(s) && Next(s, e).Some?
    ensures var t := Next(s, e).value; forall i :: 0 <= i < |t.threads| ==> ChangeIsLast(t, t.threads[i])
  {
    hide Inv, LooksOk, AccountsMatch, ChangeIsLast, Next;
    StepsMoveLocks(s, e);
    LogGrows(s, e);
    var t := Next(s, e).value;
    forall j | 0 <= j < |t.threads| ensures ChangeIsLast(t, t.threads[j]) {
      if j == e.thread {
        MoverChangeIsLast(s, e);
      } else {
        OtherChangeIsLast(s, t, e.thread, j);
      }
    }
  }

  lemma OtherChangeIsLast(s: Broker, t: Broker, i: nat, j: nat)
    requires Inv(s) && i < |s.threads| == |t.threads| && j < |t.threads| && i != j
    requires t.threads[j] == s.threads[j]
    requires t.log == s.log || HoldsReserved(s.threads[i])
    ensures ChangeIsLast(t, t.threads[j])
  {
    hide LeasesOk, LooksOk, AccountsMatch;
    assert LockMatches(s, i) && LockMatches(s, j) && ChangeIsLast(s, s.threads[j]);
  }

  lemma MoverChangeIsLast(s: Broker, e: Event)
    requires Inv(s) && Next(s, e).Some?
    ensures e.thread < |s.threads| == |Next(s, e).value.threads|
    ensures ChangeIsLast(Next(s, e).value, Next(s, e).value.threads[e.thread])
  {
    hide Leases, PowerOfTwo, LooksOk, AccountsMatch, OwnerAt, PeakAt, LocksMatch;
    var i := e.thread;
    assert ChangeIsLast(s, s.threads[i]) && LeaseOk(s, s.threads[i]);
    match e
    case Start(_, call) =>
      var t := Begin(s, i, call).value;
    case Step(_) =>
      match s.threads[i]
      case Changing(job, phase, id) =>
        var t := AdvanceChange(s, i, job, phase, id).value;
        assert forall x :: (s.log + [x])[..|s.log|] == s.log;
      case Looking(why, look) =>
        var t := AdvanceLook(s, i, why, look).value;
  }

  lemma AccountsKept(s: Broker, e: Event)
    requires Inv(s) && Next(s, e).Some?
    ensures AccountsMatch(Next(s, e).value)
  {
    hide Inv, AccountsMatch, AdvanceChange, AdvanceLook, Begin, Change;
    var i := e.thread;
    match e
    case Start(_, call) => StartKeepsAccounts(s, i, call);
    case Step(_) =>
      match s.threads[i]
      case Changing(job, phase, id) =>
        if phase == Check {
          CheckIsChange(s, i, job, id);
          ChangeKeepsAccounts(s, i, job, id);
        } else {
          ChangeStepKeepsAccounts(s, i, job, phase, id);
        }
      case Looking(why, look) => LookKeepsAccounts(s, i, why, look);
  }

  lemma CheckIsChange(s: Broker, i: nat, job: Job, id: nat)
    requires i < |s.threads|
    ensures AdvanceChange(s, i, job, Check, id) == Some(Change(s, i, job, id))
  {
  }

  lemma StartKeepsAccounts(s: Broker, i: nat, call: Call)
    requires Inv(s) && i < |s.threads| && Begin(s, i, call).Some?
    ensures AccountsMatch(Begin(s, i, call).value)
  {
    hide Leases, PowerOfTwo, Legal, Charged, Peak, Shows, LookOk, ChangeIsLast, LeasesOk;
    assert LockMatches(s, i);
  }

  lemma LookKeepsAccounts(s: Broker, i: nat, why: Why, look: Look)
    requires Inv(s) && i < |s.threads| && s.threads[i] == Looking(why, look) && AdvanceLook(s, i, why, look).Some?
    ensures AccountsMatch(AdvanceLook(s, i, why, look).value)
  {
    hide Leases, Legal, Charged, Peak, Shows, LookOk, ChangeIsLast, LeasesOk;
    assert LockMatches(s, i);
  }

  lemma ChangeKeepsAccounts(s: Broker, i: nat, job: Job, id: nat)
    requires Inv(s) && i < |s.threads| && s.threads[i] == Changing(job, Check, id)
    ensures AccountsMatch(Change(s, i, job, id))
  {
    hide Leases, Legal, Charged, Peak, Shows, LookOk, ChangeIsLast;
    assert LockMatches(s, i) && LeaseOk(s, s.threads[i]);
    var log := s.log;
    assert log[..|log|] == log;
    LegalStaysInBudget(log, s.budget);
    match job
    case Reserving(owner, bytes) =>
      var e := Grant(owner, bytes);
      assert (log + [e])[..|log|] == log;
      GrantCharges(log, owner, bytes, s.byOwner);
      if s.reserved + bytes <= s.budget {
        LegalGrows(log, e, s.budget);
      }
    case Dropping(owner, bytes, lease) =>
      var e := Release(lease);
      assert (log + [e])[..|log|] == log;
      ReleaseDischarges(log, lease, s.byOwner);
      LegalGrows(log, e, s.budget);
  }

  /** Telling `by_owner`, and then `peak`, of the pending effect. Neither
      saturating operation clips. */
  lemma ChangeStepKeepsAccounts(s: Broker, i: nat, job: Job, phase: Phase, id: nat)
    requires Inv(s) && i < |s.threads| && s.threads[i] == Changing(job, phase, id) && phase != Check
    requires AdvanceChange(s, i, job, phase, id).Some?
    ensures AccountsMatch(AdvanceChange(s, i, job, phase, id).value)
  {
    hide Leases, Legal, Charged, Peak, Shows, LookOk, LeasesOk, ChargedTo, OwnerReserved.Add, OwnerReserved.Sub;
    assert LockMatches(s, i) && ChangeIsLast(s, s.threads[i]);
    var log := s.log;
    assert log[..|log|] == log;
    if phase != Lock {
      var before := log[..|log| - 1];
      assert log == before + [log[|log| - 1]];
      OwnerIsTold(before, job, s.byOwner, s.budget, log);
      PeakIsTold(before, job, log);
    }
  }

  lemma PeakIsTold(before: seq<Effect>, job: Job, log: seq<Effect>)
    requires job.Reserving? ==> log == before + [Grant(job.owner, job.bytes)]
    requires job.Dropping? ==>
      (log == before + [Release(job.id)] && job.id < |Leases(before)|
       && Leases(before)[job.id] == Lease(job.owner, job.bytes, true))
    ensures Peak(log) == if job.Reserving? then Max(Peak(before), Charged(Leases(log))) else Peak(before)
  {
    hide Leases, Charged, Peak;
    match job
    case Reserving(owner, bytes) => PeakGrows(before, Grant(owner, bytes));
    case Dropping(_, _, id) => ReleaseKeepsPeak(before, id);
  }

  lemma OwnerIsTold(before: seq<Effect>, job: Job, o: OwnerReserved, budget: nat, log: seq<Effect>)
    requires budget <= U64_MAX && Legal(log, budget)
    requires job.Reserving? ==> log == before + [Grant(job.owner, job.bytes)]
    requires job.Dropping? ==>
      (log == before + [Release(job.id)] && job.id < |Leases(before)|
       && Leases(before)[job.id] == Lease(job.owner, job.bytes, true))
    ensures Shows(o, Leases(before)) ==>
      Shows(if job.Reserving? then o.Add(job.owner, job.bytes) else o.Sub(job.owner, job.bytes), Leases(log))
  {
    hide Leases, Legal, Charged, Peak, Shows, OwnerReserved.Put, OwnerReserved.Get;
    if Shows(o, Leases(before)) {
      OwnerHasRoom(before, job, o, budget, log);
    }
    match job
    case Reserving(owner, bytes) => GrantCharges(before, owner, bytes, o);
    case Dropping(owner, bytes, id) => ReleaseDischarges(before, id, o);
  }

  // ------------------------------------------------------------------------
  // Leases

  lemma LeasesPersist(log: seq<Effect>, e: Effect)
    ensures |Leases(log)| <= |Leases(log + [e])|
    ensures forall id :: 0 <= id < |Leases(log)| && e != Release(id) ==> Leases(log + [e])[id] == Leases(log)[id]
  {
    LeasesGrow(log, e);
    assert (log + [e])[..|log|] == log;
  }

  lemma LeasesKept(s: Broker, e: Event)
    requires Inv(s) && Next(s, e).Some?
    ensures LeasesOk(Next(s, e).value)
  {
    hide Inv, AccountsMatch, LeasesOk, AdvanceChange, AdvanceLook, Begin, Change;
    var i := e.thread;
    match e
    case Start(_, call) => StartKeepsLeases(s, i, call);
    case Step(_) =>
      match s.threads[i]
      case Changing(job, phase, id) =>
        if phase == Check {
          CheckIsChange(s, i, job, id);
          ChangeKeepsLeases(s, i, job, id);
        } else {
          ChangeStepKeepsLeases(s, i, job, phase, id);
        }
      case Looking(why, look) => LookKeepsLeases(s, i, why, look);
  }

  lemma StartKeepsLeases(s: Broker, i: nat, call: Call)
    requires Inv(s) && i < |s.threads| && Begin(s, i, call).Some?
    ensures LeasesOk(Begin(s, i, call).value)
  {
    hide Leases, PowerOfTwo, LooksOk, ChangeIsLast, AccountsMatch, LocksMatch;
    var t := Begin(s, i, call).value;
    forall j | 0 <= j < |t.threads| ensures LeaseOk(t, t.threads[j]) {
      assert LeaseOk(s, s.threads[j]);
    }
    forall j, k | 0 <= j < |t.threads| && 0 <= k < |t.threads| ensures Apart(t, j, k) {
      assert Apart(s, j, k) && LeaseOk(s, s.threads[j]) && LeaseOk(s, s.threads[k]);
    }
    forall id | id in t.held ensures HeldOk(t, id) {
      assert HeldOk(s, id);
    }
  }

  lemma LookKeepsLeases(s: Broker, i: nat, why: Why, look: Look)
    requires Inv(s) && i < |s.threads| && s.threads[i] == Looking(why, look) && AdvanceLook(s, i, why, look).Some?
    ensures LeasesOk(AdvanceLook(s, i, why, look).value)
  {
    hide Leases, LooksOk, ChangeIsLast, AccountsMatch, LocksMatch, OwnerAt, PeakAt;
    var t := AdvanceLook(s, i, why, look).value;
    forall j | 0 <= j < |t.threads| ensures LeaseOk(t, t.threads[j]) {
      assert LeaseOk(s, s.threads[j]);
    }
    forall j, k | 0 <= j < |t.threads| && 0 <= k < |t.threads| ensures Apart(t, j, k) {
      assert Apart(s, j, k);
    }
    forall id | id in t.held ensures HeldOk(t, id) {
      assert HeldOk(s, id);
    }
  }

  lemma ChangeStepKeepsLeases(s: Broker, i: nat, job: Job, phase: Phase, id: nat)
    requires Inv(s) && i < |s.threads| && s.threads[i] == Changing(job, phase, id) && phase != Check
    requires AdvanceChange(s, i, job, phase, id).Some?
    ensures LeasesOk(AdvanceChange(s, i, job, phase, id).value)
  {
    hide Leases, LooksOk, ChangeIsLast, AccountsMatch, LocksMatch, OwnerAt, PeakAt;
    var t := AdvanceChange(s, i, job, phase, id).value;
    assert LeaseOk(s, s.threads[i]);
    forall j | 0 <= j < |t.threads| ensures LeaseOk(t, t.threads[j]) {
      assert LeaseOk(s, s.threads[j]) && Apart(s, i, j);
    }
    forall j, k | 0 <= j < |t.threads| && 0 <= k < |t.threads| ensures Apart(t, j, k) {
      assert Apart(s, j, k);
    }
    forall x | x in t.held ensures HeldOk(t, x) {
      assert x in s.held ==> HeldOk(s, x);
    }
  }

  lemma ChangeKeepsLeases(s: Broker, i: nat, job: Job, id: nat)
    requires Inv(s) && i < |s.threads| && s.threads[i] == Changing(job, Check, id)
    ensures LeasesOk(Change(s, i, job, id))
  {
    hide Leases, LooksOk, ChangeIsLast, AccountsMatch, LocksMatch;
    var t := Change(s, i, job, id);
    assert LeaseOk(s, s.threads[i]);
    var e := if job.Reserving? then Grant(job.owner, job.bytes) else Release(job.id);
    LeasesPersist(s.log, e);
    LeasesGrow(s.log, e);
    forall j | 0 <= j < |t.threads| ensures LeaseOk(t, t.threads[j]) {
      assert LeaseOk(s, s.threads[j]) && Apart(s, i, j);
      assert forall x :: x in s.held ==> HeldOk(s, x);
    }
    forall j, k | 0 <= j < |t.threads| && 0 <= k < |t.threads| ensures Apart(t, j, k) {
      assert Apart(s, j, k) && LeaseOk(s, s.threads[j]) && LeaseOk(s, s.threads[k]);
    }
    forall x | x in t.held ensures HeldOk(t, x) {
      assert HeldOk(s, x);
    }
  }

  lemma StillHandled(s: Broker, t: Broker, i: nat, id: nat)
    requires i < |s.threads| == |t.threads| && t.threads == s.threads[i := t.threads[i]]
    requires Handled(s, id)
    requires id in s.held ==> Handled(t, id)
    requires Working(s.threads[i]) == Some(id) ==> Handled(t, id)
    ensures Handled(t, id)
  {
    if id !in s.held {
      var j: nat :| WorksOn(s, j, id);
      if j != i {
        assert t.threads[j] == s.threads[j];
        assert WorksOn(t, j, id);
      }
    }
  }

  lemma NothingLeaksKept(s: Broker, e: Event)
    requires Inv(s) && Next(s, e).Some?
    ensures NothingLeaks(Next(s, e).value)
  {
    hide Inv, AccountsMatch, NothingLeaks, AdvanceChange, AdvanceLook, Begin, Change;
    var i := e.thread;
    match e
    case Start(_, call) => StartLeaksNothing(s, i, call);
    case Step(_) =>
      match s.threads[i]
      case Changing(job, phase, id) =>
        if phase == Check {
          CheckIsChange(s, i, job, id);
          ChangeLeaksNothing(s, i, job, id);
        } else {
          ChangeStepLeaksNothing(s, i, job, phase, id);
        }
      case Looking(why, look) => LookLeaksNothing(s, i, why, look);
  }

  lemma StartLeaksNothing(s: Broker, i: nat, call: Call)
    requires Inv(s) && i < |s.threads| && Begin(s, i, call).Some?
    ensures NothingLeaks(Begin(s, i, call).value)
  {
    hide Leases, PowerOfTwo, LooksOk, ChangeIsLast, AccountsMatch, LocksMatch, LeasesOk;
    var t := Begin(s, i, call).value;
    forall id | 0 <= id < |Leases(t.log)| && Leases(t.log)[id].live ensures Handled(t, id) {
      assert Handled(s, id);
      assert call == Drop(id) ==> WorksOn(t, i, id);
      StillHandled(s, t, i, id);
    }
  }

  lemma LookLeaksNothing(s: Broker, i: nat, why: Why, look: Look)
    requires Inv(s) && i < |s.threads| && s.threads[i] == Looking(why, look) && AdvanceLook(s, i, why, look).Some?
    ensures NothingLeaks(AdvanceLook(s, i, why, look).value)
  {
    hide Leases, LooksOk, ChangeIsLast, AccountsMatch, LocksMatch, LeasesOk, OwnerAt, PeakAt;
    var t := AdvanceLook(s, i, why, look).value;
    forall id | 0 <= id < |Leases(t.log)| && Leases(t.log)[id].live ensures Handled(t, id) {
      assert Handled(s, id);
      StillHandled(s, t, i, id);
    }
  }

  lemma ChangeStepLeaksNothing(s: Broker, i: nat, job: Job, phase: Phase, id: nat)
    requires Inv(s) && i < |s.threads| && s.threads[i] == Changing(job, phase, id) && phase != Check
    requires AdvanceChange(s, i, job, phase, id).Some?
    ensures NothingLeaks(AdvanceChange(s, i, job, phase, id).value)
  {
    hide Leases, LooksOk, ChangeIsLast, AccountsMatch, LocksMatch, LeasesOk, OwnerAt, PeakAt;
    var t := AdvanceChange(s, i, job, phase, id).value;
    forall x | 0 <= x < |Leases(t.log)| && Leases(t.log)[x].live ensures Handled(t, x) {
      assert Handled(s, x);
      assert Working(s.threads[i]) == Some(x) ==> x in t.held || WorksOn(t, i, x);
      StillHandled(s, t, i, x);
    }
  }

  lemma ChangeLeaksNothing(s: Broker, i: nat, job: Job, id: nat)
    requires Inv(s) && i < |s.threads| && s.threads[i] == Changing(job, Check, id)
    ensures NothingLeaks(Change(s, i, job, id))
  {
    hide Leases, LooksOk, ChangeIsLast, AccountsMatch, LocksMatch, OwnerAt, PeakAt;
    var t := Change(s, i, job, id);
    assert LeaseOk(s, s.threads[i]);
    var e := if job.Reserving? then Grant(job.owner, job.bytes) else Release(job.id);
    LeasesPersist(s.log, e);
    LeasesGrow(s.log, e);
    forall x | 0 <= x < |Leases(t.log)| && Leases(t.log)[x].live ensures Handled(t, x) {
      if x < |Leases(s.log)| {
        assert Handled(s, x);
        StillHandled(s, t, i, x);
      } else {
        assert WorksOn(t, i, x);
      }
    }
  }

  // ------------------------------------------------------------------------
  // Snapshots

  /** What the accounts show is never taken back. */
  lemma ViewsGrow(s: Broker, e: Event)
    requires Inv(s) && Next(s, e).Some?
    ensures var t := Next(s, e).value; OwnerAt(s) <= OwnerAt(t) && PeakAt(s) <= PeakAt(t)
  {
    hide Leases, PowerOfTwo, AccountsMatch, LeasesOk, LooksOk, NothingLeaks, LocksMatch;
    var i := e.thread;
    LockAt(s, i);
    assert ChangeIsLast(s, s.threads[i]);
    match e
    case Start(_, call) =>
      var t := Begin(s, i, call).value;
    case Step(_) =>
      match s.threads[i]
      case Changing(job, phase, id) =>
        var t := AdvanceChange(s, i, job, phase, id).value;
      case Looking(why, look) =>
        var t := AdvanceLook(s, i, why, look).value;
  }

  lemma LockAt(s: Broker, i: nat)
    requires LocksMatch(s) && i < |s.threads|
    ensures LockMatches(s, i)
  {
  }

  lemma LookAt(s: Broker, i: nat)
    requires Inv(s) && i < |s.threads|
    ensures LookOk(s.log, OwnerAt(s), PeakAt(s), s.threads[i])
  {
    hide LookOk, OwnerAt, PeakAt, LocksMatch, AccountsMatch, LeasesOk, NothingLeaks, ChangeIsLast;
  }

  lemma LookPersists(log: seq<Effect>, ownerAt: nat, peakAt: nat, log': seq<Effect>, ownerAt': nat, peakAt': nat,
                     t: Thread)
    requires log == log' || (log' != [] && log'[..|log'| - 1] == log)
    requires ownerAt <= ownerAt' && peakAt <= peakAt'
    requires LookOk(log, ownerAt, peakAt, t)
    ensures LookOk(log', ownerAt', peakAt', t)
  {
    hide Leases, Charged, Peak, Shows;
    assert forall n :: 0 <= n <= |log| ==> log'[..n] == log[..n];
  }

  lemma LooksKept(s: Broker, e: Event)
    requires Inv(s) && Next(s, e).Some?
    ensures LooksOk(Next(s, e).value)
  {
    hide Inv, Next, LookOk, OwnerAt, PeakAt;
    StepsMoveLocks(s, e);
    LogGrows(s, e);
    ViewsGrow(s, e);
    var t := Next(s, e).value;
    forall j | 0 <= j < |t.threads| ensures LookOk(t.log, OwnerAt(t), PeakAt(t), t.threads[j]) {
      if j == e.thread {
        MoverLookOk(s, e);
      } else {
        LookAt(s, j);
        LookPersists(s.log, OwnerAt(s), PeakAt(s), t.log, OwnerAt(t), PeakAt(t), s.threads[j]);
      }
    }
  }

  lemma MoverLookOk(s: Broker, e: Event)
    requires Inv(s) && Next(s, e).Some?
    ensures var t := Next(s, e).value;
      e.thread < |t.threads| && LookOk(t.log, OwnerAt(t), PeakAt(t), t.threads[e.thread])
  {
    hide Leases, PowerOfTwo, OwnerAt, PeakAt, Inv, AdvanceLook, WasTaken, WasReserved, WasByOwner;
    var i := e.thread;
    match e
    case Start(_, call) =>
      var t := Begin(s, i, call).value;
    case Step(_) =>
      match s.threads[i]
      case Changing(job, phase, id) =>
        var t := AdvanceChange(s, i, job, phase, id).value;
      case Looking(why, look) => LookerIsOk(s, i, why, look);
  }

  lemma LookerIsOk(s: Broker, i: nat, why: Why, look: Look)
    requires Inv(s) && i < |s.threads| && s.threads[i] == Looking(why, look) && AdvanceLook(s, i, why, look).Some?
    ensures var t := AdvanceLook(s, i, why, look).value;
      i < |t.threads| && LookOk(t.log, OwnerAt(t), PeakAt(t), t.threads[i])
  {
    hide Leases, LeasesOk, NothingLeaks, LocksMatch, Charged, Peak, Shows, Legal, ChangeIsLast, LooksOk;
    LockAt(s, i);
    LookAt(s, i);
    assert s.log[..|s.log|] == s.log;
  }

  // ------------------------------------------------------------------------
  // Every run

  lemma InitOk(budget: nat, threads: nat)
    requires budget <= U64_MAX
    ensures Inv(Init(budget, threads))
  {
    var s := Init(budget, threads);
    forall owner: Owner ensures ShowsOwner(NOTHING, [], owner) {
    }
  }

  lemma StepKeepsInv(s: Broker, e: Event)
    requires Inv(s) && Next(s, e).Some?
    ensures Inv(Next(s, e).value)
  {
    hide Next, LocksMatch, AccountsMatch, ChangeIsLast, LeasesOk, NothingLeaks, LooksOk;
    LocksKept(s, e);
    AccountsKept(s, e);
    ChangeIsLastKept(s, e);
    LeasesKept(s, e);
    NothingLeaksKept(s, e);
    LooksKept(s, e);
  }

  lemma {:induction false} RunKeepsInv(s: Broker, schedule: seq<Event>)
    requires Inv(s)
    ensures Inv(Run(s, schedule)) && Run(s, schedule).budget == s.budget
  {
    hide Inv, Next;
    if schedule != [] {
      RunKeepsInv(s, schedule[..|schedule| - 1]);
      var before := Run(s, schedule[..|schedule| - 1]);
      var e := schedule[|schedule| - 1];
      if Next(before, e).Some? {
        StepKeepsInv(before, e);
        LogGrows(before, e);
      }
    }
  }

  /** Main result: after any interleaving of any number of threads, `reserved` is
      the sum of the live leases and within the budget; each live lease is in
      hand, or being handed over, or being dropped; and so far as the log goes,
      every grant fitted when it was made. */
  lemma ReservedIsTheLiveLeases(budget: nat, threads: nat, schedule: seq<Event>)
    requires budget <= U64_MAX
    ensures var s := Run(Init(budget, threads), schedule);
      && s.reserved == Charged(Leases(s.log)) <= Peak(s.log) <= budget
      && Legal(s.log, budget)
      && NothingLeaks(s)
      && (forall id :: id in s.held ==> HeldOk(s, id))
  {
    InitOk(budget, threads);
    RunKeepsInv(Init(budget, threads), schedule);
    var s := Run(Init(budget, threads), schedule);
    hide Run, Leases, Charged, Peak, Legal, NothingLeaks, LooksOk, LocksMatch, ChangeIsLast;
    LegalStaysInBudget(s.log, budget);
    PeakIsAbove(s.log);
  }

  /** Whenever the `reserved` mutex is free, the three accounts agree: the
      breakdown shows exactly the live leases of each owner and sums to the
      total, and the peak is the highest total there has ever been. */
  lemma AccountsAgreeWhenFree(budget: nat, threads: nat, schedule: seq<Event>)
    requires budget <= U64_MAX
    requires Run(Init(budget, threads), schedule).reservedBy == None
    ensures var s := Run(Init(budget, threads), schedule);
      && Shows(s.byOwner, Leases(s.log))
      && s.byOwner.Total() == s.reserved
      && s.peak == Peak(s.log)
      && s.reserved <= s.peak <= budget
  {
    InitOk(budget, threads);
    RunKeepsInv(Init(budget, threads), schedule);
    var s := Run(Init(budget, threads), schedule);
    hide Run, Leases, Charged, Peak, Legal, NothingLeaks, LooksOk, LocksMatch, ChangeIsLast, LeasesOk, Shows;
    assert s.log[..|s.log|] == s.log;
    BreakdownSums(s.byOwner, Leases(s.log));
    LegalStaysInBudget(s.log, budget);
    PeakIsAbove(s.log);
  }

  /** With every thread idle the live leases are exactly those in hand. */
  lemma QuiescentMeansInHand(budget: nat, threads: nat, schedule: seq<Event>)
    requires budget <= U64_MAX
    requires var s := Run(Init(budget, threads), schedule); forall i :: 0 <= i < |s.threads| ==> s.threads[i].Idle?
    ensures var s := Run(Init(budget, threads), schedule);
      forall id: nat :: id in s.held <==> id < |Leases(s.log)| && Leases(s.log)[id].live
  {
    InitOk(budget, threads);
    RunKeepsInv(Init(budget, threads), schedule);
    var s := Run(Init(budget, threads), schedule);
    hide Run, Leases, AccountsMatch, LooksOk, LocksMatch, ChangeIsLast;
    forall id: nat ensures id in s.held <==> id < |Leases(s.log)| && Leases(s.log)[id].live {
      if id in s.held {
        assert HeldOk(s, id);
      }
      if id < |Leases(s.log)| && Leases(s.log)[id].live {
        LiveIsInHand(s, id);
      }
    }
  }

  lemma LiveIsInHand(s: Broker, id: nat)
    requires NothingLeaks(s) && forall i :: 0 <= i < |s.threads| ==> s.threads[i].Idle?
    requires id < |Leases(s.log)| && Leases(s.log)[id].live
    ensures id in s.held
  {
    hide Leases;
    assert Handled(s, id);
  }

  /** Every snapshot any thread was ever given shows the accounts of three
      moments, the total's not after the other two; so although the parts may be
      torn apart, its peak is never below its total, nor above the budget. */
  lemma SnapshotsAreOrdered(budget: nat, threads: nat, schedule: seq<Event>, i: nat)
    requires budget <= U64_MAX
    requires var s := Run(Init(budget, threads), schedule);
      i < |s.threads| && s.threads[i].Idle? && s.threads[i].last.Taken?
    ensures var s := Run(Init(budget, threads), schedule); var taken := s.threads[i].last;
      && WasTaken(s.log, taken.snapshot, taken.at, taken.ownerAt, taken.peakAt)
      && taken.snapshot.reserved <= taken.snapshot.peak <= budget
      && taken.snapshot.byOwner.Total() <= budget
  {
    InitOk(budget, threads);
    RunKeepsInv(Init(budget, threads), schedule);
    var s := Run(Init(budget, threads), schedule);
    hide Run, Inv, Leases, Charged, Peak, Legal, Shows, AccountsMatch;
    LookAt(s, i);
    var taken := s.threads[i].last;
    var snapshot := taken.snapshot;
    LegalLog(s);
    LegalPrefix(s.log, budget, taken.ownerAt);
    LegalPrefix(s.log, budget, taken.peakAt);
    LegalStaysInBudget(s.log[..taken.ownerAt], budget);
    LegalStaysInBudget(s.log[..taken.peakAt], budget);
    BreakdownSums(snapshot.byOwner, Leases(s.log[..taken.ownerAt]));
    PeakIsAbove(s.log[..taken.at]);
    PeakIsMonotone(s.log[..taken.peakAt], taken.at);
    assert s.log[..taken.peakAt][..taken.at] == s.log[..taken.at];
  }

  /** Exactly when a snapshot's breakdown sums to its total: when as many bytes
      were granted as released between its two reads. */
  lemma SnapshotAgreesIff(budget: nat, threads: nat, schedule: seq<Event>, i: nat)
    requires budget <= U64_MAX
    requires var s := Run(Init(budget, threads), schedule);
      i < |s.threads| && s.threads[i].Idle? && s.threads[i].last.Taken?
    ensures var s := Run(Init(budget, threads), schedule); var taken := s.threads[i].last;
      && taken.at <= taken.ownerAt <= |s.log|
      && (taken.snapshot.byOwner.Total() == taken.snapshot.reserved <==> Net(s.log[..taken.ownerAt], taken.at) == 0)
  {
    SnapshotsAreOrdered(budget, threads, schedule, i);
    ReservedIsTheLiveLeases(budget, threads, schedule);
    var s := Run(Init(budget, threads), schedule);
    hide Run, Leases, Charged, Peak, Legal, Shows, Net;
    var taken := s.threads[i].last;
    var seen := s.log[..taken.ownerAt];
    LegalPrefix(s.log, budget, taken.ownerAt);
    BreakdownSums(taken.snapshot.byOwner, Leases(seen));
    NetIsTheChange(seen, taken.at, budget);
    assert seen[..taken.at] == s.log[..taken.at];
  }

  /** Thread `i` is taking, or has taken, a snapshot while nobody else was at work. */
  ghost predicate Alone(s: Broker, i: nat, log: seq<Effect>) {
    && i < |s.threads| && s.log == log
    && (forall j :: 0 <= j < |s.threads| && j != i ==> s.threads[j].Idle?)
    && SawAll(s.threads[i], |log|)
  }

  ghost predicate SawAll(t: Thread, n: nat) {
    match t
    case Idle(Taken(_, at, ownerAt, peakAt)) => at == ownerAt == peakAt == n
    case Idle(_) => false
    case Changing(_, _, _) => false
    case Looking(why, look) =>
      && why == ForCaller
      && match look
         case LookLock => true
         case LookRead => true
         case LookUnlock(_, at) => at == n
         case LookLockOwner(_, at) => at == n
         case LookReadOwner(_, at) => at == n
         case LookUnlockOwner(_, at, _, ownerAt) => at == ownerAt == n
         case LookPeak(_, at, _, ownerAt) => at == ownerAt == n
  }

  lemma StepStaysAlone(s: Broker, i: nat, j: nat, log: seq<Effect>)
    requires Alone(s, i, log) && Inv(s) && Next(s, Step(j)).Some?
    ensures Alone(Next(s, Step(j)).value, i, log)
  {
    hide Inv, Leases;
    assert j == i;
    NothingPending(s, i);
  }

  lemma NothingPending(s: Broker, i: nat)
    requires Inv(s) && i < |s.threads| && !s.threads[i].Changing?
    requires forall j :: 0 <= j < |s.threads| && j != i ==> s.threads[j].Idle?
    ensures OwnerAt(s) == PeakAt(s) == |s.log|
  {
    hide AccountsMatch, LeasesOk, NothingLeaks, LooksOk, ChangeIsLast, LocksMatch;
  }

  lemma {:induction false} StepsStayAlone(s: Broker, i: nat, steps: seq<Event>)
    requires Inv(s) && Alone(s, i, s.log) && forall k :: 0 <= k < |steps| ==> steps[k].Step?
    ensures Alone(Run(s, steps), i, s.log)
  {
    hide Inv, Next, Alone;
    if steps != [] {
      var rest := steps[..|steps| - 1];
      StepsStayAlone(s, i, rest);
      RunKeepsInv(s, rest);
      var before := Run(s, rest);
      var e := steps[|steps| - 1];
      if Next(before, e).Some? {
        StepStaysAlone(before, i, e.thread, s.log);
      }
    }
  }

  lemma {:induction false} RunInTwo(s: Broker, a: seq<Event>, b: seq<Event>)
    ensures Run(s, a + b) == Run(Run(s, a), b)
  {
    hide Next;
    if b == [] {
      assert a + b == a;
    } else {
      RunInTwo(s, a, b[..|b| - 1]);
      assert (a + b)[..|a + b| - 1] == a + b[..|b| - 1];
    }
  }

  /** What a caller can rely on: a snapshot no other call overlaps shows one
      moment, so its breakdown sums to its total. */
  lemma UndisturbedSnapshotAgrees(budget: nat, threads: nat, before: seq<Event>, i: nat, steps: seq<Event>)
    requires budget <= U64_MAX && i < threads
    requires var s := Run(Init(budget, threads), before); forall j :: 0 <= j < |s.threads| ==> s.threads[j].Idle?
    requires forall k :: 0 <= k < |steps| ==> steps[k].Step?
    requires var s := Run(Init(budget, threads), before + [Start(i, TakeSnapshot)] + steps);
      i < |s.threads| && s.threads[i].Idle?
    ensures var s := Run(Init(budget, threads), before + [Start(i, TakeSnapshot)] + steps);
      && s.threads[i].last.Taken?
      && var taken := s.threads[i].last;
         && taken.at == taken.ownerAt == taken.peakAt == |s.log|
         && taken.snapshot.byOwner.Total() == taken.snapshot.reserved == Charged(Leases(s.log))
         && taken.snapshot.peak == Peak(s.log)
  {
    hide Inv, Net, Leases, Charged, Peak, Legal, Shows;
    var start := Init(budget, threads);
    InitOk(budget, threads);
    RunKeepsInv(start, before);
    RunKeepsThreads(start, before);
    var s := Run(start, before);
    var e := Start(i, TakeSnapshot);
    RunInTwo(start, before, [e]);
    RunInTwo(start, before + [e], steps);
    OneEvent(s, e);
    var t := Run(s, [e]);
    StepKeepsInv(s, e);
    StepsStayAlone(t, i, steps);
    var schedule := before + [e] + steps;
    SnapshotsAreOrdered(budget, threads, schedule, i);
    SnapshotAgreesIff(budget, threads, schedule, i);
    var u := Run(start, schedule);
    assert u.log[..|u.log|] == u.log;
    NothingSince(u.log);
  }

  lemma NothingSince(log: seq<Effect>)
    ensures Net(log, |log|) == 0
  {
  }

  lemma OneEvent(s: Broker, e: Event)
    requires Next(s, e).Some?
    ensures Run(s, [e]) == Next(s, e).value
  {
    hide Next;
    assert [e][..0] == [];
  }

  lemma {:induction false} RunKeepsThreads(s: Broker, schedule: seq<Event>)
    ensures |Run(s, schedule).threads| == |s.threads|
  {
    hide Next;
    if schedule != [] {
      RunKeepsThreads(s, schedule[..|schedule| - 1]);
      var before := Run(s, schedule[..|schedule| - 1]);
      var e := schedule[|schedule| - 1];
      if Next(before, e).Some? {
        StepsMoveLocks(before, e);
      }
    }
  }

  lemma LegalLog(s: Broker)
    requires Inv(s)
    ensures Legal(s.log, s.budget)
  {
  }

  lemma {:induction false} LegalPrefix(log: seq<Effect>, budget: nat, n: nat)
    requires Legal(log, budget) && n <= |log|
    ensures Legal(log[..n], budget)
  {
    hide Leases, Charged;
    if n < |log| {
      LegalPrefix(log[..|log| - 1], budget, n);
      assert log[..|log| - 1][..n] == log[..n];
    } else {
      assert log[..n] == log;
    }
  }

  /** A snapshot can indeed be torn: one thread reads the total, another's grant
      goes through, and the breakdown read next sums to more. */
  lemma SnapshotsCanTear() returns (schedule: seq<Event>)
    ensures var s := Run(Init(10, 2), schedule);
      && |s.threads| == 2 && s.threads[0].Idle? && s.threads[0].last.Taken?
      && s.threads[0].last.snapshot.reserved == 0
      && s.threads[0].last.snapshot.byOwner.Total() == 4
  {
    hide Run;
    var s;
    schedule, s := GrantBetweenReads();
    schedule, s := Then(schedule, s, Step(0));
    schedule, s := Then(schedule, s, Step(0));
    schedule, s := Then(schedule, s, Step(0));
    schedule, s := Then(schedule, s, Step(0));
  }

  lemma GrantBetweenReads() returns (schedule: seq<Event>, s: Broker)
    ensures s == Run(Init(10, 2), schedule)
    ensures s.threads == [Looking(ForCaller, LookLockOwner(0, 0)), Changing(Reserving(Core, 4), RaisePeak, 0)]
    ensures s.byOwner == NOTHING.(core := 4) && s.ownerBy == None
  {
    hide Run;
    s := Init(10, 2);
    schedule := [];
    EmptyRun(s);
    schedule, s := Then(schedule, s, Start(0, TakeSnapshot));
    schedule, s := Then(schedule, s, Step(0));
    schedule, s := Then(schedule, s, Step(0));
    schedule, s := Then(schedule, s, Step(0));
    schedule, s := Then(schedule, s, Start(1, Reserve(Core, 4, 1)));
    schedule, s := Then(schedule, s, Step(1));
    schedule, s := Then(schedule, s, Step(1));
    schedule, s := Then(schedule, s, Step(1));
    schedule, s := Then(schedule, s, Step(1));
    schedule, s := Then(schedule, s, Step(1));
  }

  lemma EmptyRun(s: Broker)
    ensures Run(s, []) == s
  {
  }

  lemma Then(before: seq<Event>, s: Broker, e: Event) returns (after: seq<Event>, t: Broker)
    requires s == Run(Init(10, 2), before) && Next(s, e).Some?
    ensures after == before + [e] && t == Next(s, e).value == Run(Init(10, 2), after)
  {
    after := before + [e];
    t := Next(s, e).value;
    assert after[..|after| - 1] == before;
  }

  /** No arithmetic clips or wraps, in any reachable state. */
  lemma NothingClips(s: Broker, i: nat)
    requires Inv(s) && i < |s.threads| && s.threads[i].Changing?
    ensures var job := s.threads[i].job;
      && s.reserved <= s.budget
      && (s.threads[i].phase == Check && job.Dropping? ==> job.bytes <= s.reserved)
      && (s.threads[i].phase == UpdateOwner && job.Reserving? ==> s.byOwner.Get(job.owner) + job.bytes <= U64_MAX)
      && (s.threads[i].phase == UpdateOwner && job.Dropping? ==> job.bytes <= s.byOwner.Get(job.owner))
  {
    hide Leases, Legal, Charged, Peak, Shows, LookOk, ChargedTo, OwnerReserved.Get, NothingLeaks, LooksOk;
    var log := s.log;
    var job := s.threads[i].job;
    LegalStaysInBudget(log, s.budget);
    assert LockMatches(s, i) && ChangeIsLast(s, s.threads[i]) && LeaseOk(s, s.threads[i]);
    if s.threads[i].phase == Check && job.Dropping? {
      ReleaseDischarges(log, job.id, s.byOwner);
    }
    if s.threads[i].phase == UpdateOwner {
      var before := log[..|log| - 1];
      assert log == before + [log[|log| - 1]];
      OwnerHasRoom(before, job, s.byOwner, s.budget, log);
    }
  }

  lemma OwnerHasRoom(before: seq<Effect>, job: Job, o: OwnerReserved, budget: nat, log: seq<Effect>)
    requires budget <= U64_MAX && Legal(log, budget) && Shows(o, Leases(before))
    requires job.Reserving? ==> log == before + [Grant(job.owner, job.bytes)]
    requires job.Dropping? ==>
      (log == before + [Release(job.id)] && job.id < |Leases(before)|
       && Leases(before)[job.id] == Lease(job.owner, job.bytes, true))
    ensures job.Reserving? ==> o.Get(job.owner) + job.bytes <= budget
    ensures job.Dropping? ==> job.bytes <= o.Get(job.owner)
  {
    hide Leases, Legal, Charged, Peak, OwnerReserved.Put, OwnerReserved.Get;
    match job
    case Reserving(owner, bytes) =>
      GrantCharges(before, owner, bytes, o);
      LegalStaysInBudget(log, budget);
      assert ShowsOwner(o, Leases(before), owner);
      OwnerIsWithinTotal(Leases(before), owner);
    case Dropping(owner, bytes, id) =>
      ReleaseDischarges(before, id, o);
  }

  /** No deadlock: while any thread is busy, some thread can step. */
  lemma SomeThreadCanStep(s: Broker, i: nat) returns (j: nat)
    requires Inv(s) && i < |s.threads| && !s.threads[i].Idle?
    ensures j < |s.threads| && Next(s, Step(j)).Some?
  {
    hide AccountsMatch, LeasesOk, NothingLeaks, LooksOk, ChangeIsLast, Leases, OwnerAt, PeakAt, Change;
    if s.ownerBy.Some? {
      j := s.ownerBy.value;
    } else if s.reservedBy.Some? {
      j := s.reservedBy.value;
    } else {
      j := i;
    }
    LockAt(s, j);
  }
}
