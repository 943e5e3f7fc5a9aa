/** What every call to the broker comes back with, whatever the other threads do
    in the meantime: each is decided at one moment between its start and its end. */
module BrokerOutcomes {
  import opened Wrappers
  import opened MemoryLedger
  import opened BrokerProtocol

  ghost predicate IsPow2(n: nat) {
    exists k: nat :: n == Pow2(k)
  }

  ghost predicate WellFormed(bytes: nat, alignment: nat) {
    0 < bytes && IsPow2(alignment)
  }

  /** The test for alignment, by halving, finds just the powers of two. */
  lemma PowerOfTwoIs(n: nat)
    ensures PowerOfTwo(n) <==> IsPow2(n)
    ensures PowerOfTwo(n) ==> n != 0
  {
    if PowerOfTwo(n) {
      var k := LogOf(n);
      assert n == Pow2(k);
    }
    forall k: nat | n == Pow2(k) ensures PowerOfTwo(n) {
      Pow2IsPowerOfTwo(k);
    }
  }

  lemma {:induction false} LogOf(n: nat) returns (k: nat)
    requires PowerOfTwo(n)
    ensures n == Pow2(k)
  {
    k := 0;
    if n > 1 {
      k := LogOf(n / 2);
      k := k + 1;
    }
  }

  lemma {:induction false} Pow2IsPowerOfTwo(k: nat)
    ensures PowerOfTwo(Pow2(k))
  {
    if k > 0 {
      Pow2IsPowerOfTwo(k - 1);
    }
  }

  /** A well-formed request after the first `n` changes: granted exactly if it fits
      beside what is charged then, as the next lease and with all its bytes. */
  ghost predicate DecidedAt(owner: Owner, bytes: nat, budget: nat, log: seq<Effect>, n: nat, outcome: Outcome) {
    n <= |log|
    && var charged := Charged(Leases(log[..n]));
       if charged + bytes <= budget
       then n < |log| && log[n] == Grant(owner, bytes) && outcome == Granted(|Leases(log[..n])|)
       else outcome.Refused? && outcome.requested == bytes && charged + outcome.available == budget
  }

  ghost predicate Decided(owner: Owner, bytes: nat, budget: nat, log: seq<Effect>, from: nat, outcome: Outcome) {
    exists n: nat :: from <= n <= |log| && DecidedAt(owner, bytes, budget, log, n, outcome)
  }

  ghost predicate Released(log: seq<Effect>, from: nat, id: nat) {
    exists n: nat :: from <= n < |log| && log[n] == Release(id)
  }

  /** What a call made after the first `from` changes may come back with. */
  ghost predicate TurnsOut(call: Call, budget: nat, log: seq<Effect>, from: nat, outcome: Outcome) {
    match call
    case Reserve(owner, bytes, alignment) =>
      if WellFormed(bytes, alignment) then Decided(owner, bytes, budget, log, from, outcome)
      else outcome.Refused? && outcome.requested == bytes && outcome.available <= budget
    case Drop(id) => outcome == Dropped && Released(log, from, id)
    case TakeSnapshot => outcome.Taken? && outcome.snapshot.budget == budget && from <= outcome.at
  }

  ghost predicate ChangeUnderway(call: Call, budget: nat, log: seq<Effect>, from: nat, job: Job, phase: Phase,
                                 id: nat)
  {
    match call
    case Reserve(owner, bytes, alignment) =>
      && WellFormed(bytes, alignment) && job == Reserving(owner, bytes)
      && (phase.Lock? || phase.Check? || Decided(owner, bytes, budget, log, from, Granted(id)))
    case Drop(lease) =>
      && job.Dropping? && job.id == lease && !phase.RaisePeak?
      && (phase.Lock? || phase.Check? || Released(log, from, lease))
    case TakeSnapshot => false
  }

  predicate SeenSince(look: Look, from: nat) {
    match look
    case LookLock => true
    case LookRead => true
    case LookUnlock(_, at) => from <= at
    case LookLockOwner(_, at) => from <= at
    case LookReadOwner(_, at) => from <= at
    case LookUnlockOwner(_, at, _, _) => from <= at
    case LookPeak(_, at, _, _) => from <= at
  }

  /** Where a thread can be while its call is under way, and when it is done. */
  ghost predicate Underway(call: Call, budget: nat, log: seq<Effect>, from: nat, t: Thread) {
    from <= |log|
    && match t
       case Idle(outcome) => TurnsOut(call, budget, log, from, outcome)
       case Changing(job, phase, id) => ChangeUnderway(call, budget, log, from, job, phase, id)
       case Looking(why, look) =>
         match call
         case Reserve(_, bytes, alignment) =>
           !WellFormed(bytes, alignment) && (why == ErrorBudget(bytes) || why == ErrorReserved(bytes))
         case Drop(_) => false
         case TakeSnapshot => why == ForCaller && SeenSince(look, from)
  }

  lemma DecidedLater(owner: Owner, bytes: nat, budget: nat, log: seq<Effect>, log': seq<Effect>, from: nat,
                     outcome: Outcome)
    requires log <= log' && Decided(owner, bytes, budget, log, from, outcome)
    ensures Decided(owner, bytes, budget, log', from, outcome)
  {
    hide Leases, Charged;
    var n: nat :| from <= n <= |log| && DecidedAt(owner, bytes, budget, log, n, outcome);
    assert log'[..n] == log[..n];
    assert DecidedAt(owner, bytes, budget, log', n, outcome);
  }

  lemma ReleasedLater(log: seq<Effect>, log': seq<Effect>, from: nat, id: nat)
    requires log <= log' && Released(log, from, id)
    ensures Released(log', from, id)
  {
    var n: nat :| from <= n < |log| && log[n] == Release(id);
    assert log'[n] == Release(id);
  }

  /** What has been decided stays decided. */
  lemma StillUnderway(call: Call, budget: nat, log: seq<Effect>, log': seq<Effect>, from: nat, t: Thread)
    requires log <= log' && Underway(call, budget, log, from, t)
    ensures Underway(call, budget, log', from, t)
  {
    hide Decided, Released, WellFormed;
    match call
    case Reserve(owner, bytes, _) =>
      if t.Changing? && Decided(owner, bytes, budget, log, from, Granted(t.id)) {
        DecidedLater(owner, bytes, budget, log, log', from, Granted(t.id));
      } else if t.Idle? && Decided(owner, bytes, budget, log, from, t.last) {
        DecidedLater(owner, bytes, budget, log, log', from, t.last);
      }
    case Drop(id) =>
      if Released(log, from, id) {
        ReleasedLater(log, log', from, id);
      }
    case TakeSnapshot =>
  }

  lemma LogIsPrefix(s: Broker, e: Event)
    requires Next(s, e).Some?
    ensures s.log <= Next(s, e).value.log && Next(s, e).value.budget == s.budget
  {
    hide Next;
    LogGrows(s, e);
  }

  /** The one moment of a change: the check under the lock. */
  lemma CheckDecides(call: Call, s: Broker, i: nat, job: Job, id: nat, from: nat)
    requires Inv(s) && i < |s.threads| && s.threads[i] == Changing(job, Check, id)
    requires Underway(call, s.budget, s.log, from, s.threads[i])
    ensures var t := Change(s, i, job, id); Underway(call, s.budget, t.log, from, t.threads[i])
  {
    hide WellFormed, LocksMatch, LeasesOk, NothingLeaks, LooksOk, ChangeIsLast, Leases, Charged, Peak, Shows, Legal;
    var t, n := Change(s, i, job, id), |s.log|;
    LegalStaysInBudget(s.log, s.budget);
    assert s.reserved == Charged(Leases(s.log));
    assert t.log[..n] == s.log && s.log[..n] == s.log;
    match call
    case Reserve(owner, bytes, _) =>
      var outcome := if Charged(Leases(s.log)) + bytes <= s.budget then Granted(|Leases(s.log)|)
                     else Refused(bytes, s.budget - Charged(Leases(s.log)));
      assert DecidedAt(owner, bytes, s.budget, t.log, n, outcome);
    case Drop(lease) =>
      assert t.log[n] == Release(lease) by {
        assert LeaseOk(s, s.threads[i]) by { LeaseAt(s, i); }
      }
  }

  lemma LeaseAt(s: Broker, i: nat)
    requires Inv(s) && i < |s.threads|
    ensures LeaseOk(s, s.threads[i])
  {
  }

  /** A thread's own step takes its call on, or brings it to its end. */
  lemma OwnStep(call: Call, s: Broker, i: nat, from: nat)
    requires Inv(s) && i < |s.threads| && Underway(call, s.budget, s.log, from, s.threads[i]) && Advance(s, i).Some?
    ensures var t := Advance(s, i).value;
      i < |t.threads| && t.budget == s.budget && Underway(call, t.budget, t.log, from, t.threads[i])
  {
    hide WellFormed, Decided, Released, Leases, Charged, OwnerAt, PeakAt, Inv;
    match s.threads[i]
    case Changing(job, phase, id) =>
      if phase.Check? {
        CheckDecides(call, s, i, job, id, from);
      }
    case Looking(why, look) =>
      ReservedWithin(s);
  }

  lemma ReservedWithin(s: Broker)
    requires Inv(s)
    ensures s.reserved <= s.budget
  {
    hide LocksMatch, LeasesOk, NothingLeaks, LooksOk, ChangeIsLast, Leases, Charged, Peak, Shows, Legal;
    LegalStaysInBudget(s.log, s.budget);
  }

  lemma AnyStep(call: Call, s: Broker, i: nat, from: nat, e: Event)
    requires Inv(s) && i < |s.threads| && Underway(call, s.budget, s.log, from, s.threads[i]) && Next(s, e).Some?
    requires !(e.Start? && e.thread == i)
    ensures var t := Next(s, e).value;
      i < |t.threads| && t.budget == s.budget && Underway(call, t.budget, t.log, from, t.threads[i])
  {
    hide Inv, Underway, Advance, Begin;
    if e.thread == i {
      OwnStep(call, s, i, from);
    } else {
      hide Next;
      LogIsPrefix(s, e);
      StepsMoveLocks(s, e);
      StillUnderway(call, s.budget, s.log, Next(s, e).value.log, from, s.threads[i]);
    }
  }

  lemma {:induction false} StepsUnderway(call: Call, s: Broker, i: nat, from: nat, steps: seq<Event>)
    requires Inv(s) && i < |s.threads| && Underway(call, s.budget, s.log, from, s.threads[i])
    requires forall k :: 0 <= k < |steps| ==> !(steps[k].Start? && steps[k].thread == i)
    ensures var t := Run(s, steps);
      && Inv(t) && i < |t.threads| && t.budget == s.budget
      && Underway(call, t.budget, t.log, from, t.threads[i])
  {
    hide Inv, Underway, Next;
    if steps != [] {
      var n := |steps| - 1;
      StepsUnderway(call, s, i, from, steps[..n]);
      var before := Run(s, steps[..n]);
      if Next(before, steps[n]).Some? {
        StepKeepsInv(before, steps[n]);
        AnyStep(call, before, i, from, steps[n]);
      }
    }
  }

  lemma StartsUnderway(call: Call, s: Broker, i: nat)
    requires i < |s.threads| && Begin(s, i, call).Some?
    ensures var t := Begin(s, i, call).value;
      i < |t.threads| && t.budget == s.budget && t.log == s.log
        && Underway(call, t.budget, t.log, |s.log|, t.threads[i])
  {
    hide Leases, PowerOfTwo, Decided, Released;
    match call
    case Reserve(_, _, alignment) => PowerOfTwoIs(alignment);
    case Drop(_) =>
    case TakeSnapshot =>
  }

  /** Any idle thread can ask for memory or for a snapshot, and can drop just what
      its callers hold. */
  lemma CallsBegin(s: Broker, i: nat, call: Call)
    requires Inv(s) && i < |s.threads|
    ensures Begin(s, i, call).Some? <==> s.threads[i].Idle? && (call.Drop? ==> call.id in s.held)
  {
    hide Leases, PowerOfTwo, LocksMatch, AccountsMatch, ChangeIsLast, NothingLeaks, LooksOk;
    if call.Drop? && call.id in s.held {
      assert HeldOk(s, call.id);
    }
  }

  /** Main result: in every interleaving, a call that has come back has come back
      with the right answer. A request that is not well formed is refused; one that
      is is granted in full if it fitted, and refused if it did not, at some one
      moment between its start and its end, and the answer says what was available
      then; a drop has released its lease. */
  lemma CallTurnsOut(budget: nat, threads: nat, before: seq<Event>, i: nat, call: Call, steps: seq<Event>)
    requires budget <= U64_MAX && i < threads
    requires var s := Run(Init(budget, threads), before);
      i < |s.threads| && s.threads[i].Idle? && (call.Drop? ==> call.id in s.held)
    requires forall k :: 0 <= k < |steps| ==> !(steps[k].Start? && steps[k].thread == i)
    requires var u := Run(Init(budget, threads), before + [Start(i, call)] + steps);
      i < |u.threads| && u.threads[i].Idle?
    ensures var s, u := Run(Init(budget, threads), before), Run(Init(budget, threads),
      before + [Start(i, call)] + steps);
      TurnsOut(call, budget, u.log, |s.log|, u.threads[i].last)
  {
    hide Inv, TurnsOut, Begin, Advance, Run;
    var start, e := Init(budget, threads), Start(i, call);
    InitOk(budget, threads);
    RunKeepsInv(start, before);
    var s := Run(start, before);
    CallsBegin(s, i, call);
    RunInTwo(start, before, [e]);
    RunInTwo(start, before + [e], steps);
    OneEvent(s, e);
    StartsUnderway(call, s, i);
    StepKeepsInv(s, e);
    StepsUnderway(call, Run(s, [e]), i, |s.log|, steps);
  }

  // ------------------------------------------------------------------------
  // Every call ends

  function LookSteps(look: Look): nat {
    match look
    case LookLock => 6
    case LookRead => 5
    case LookUnlock(_, _) => 4
    case LookLockOwner(_, _) => 3
    case LookReadOwner(_, _) => 2
    case LookUnlockOwner(_, _, _, _) => 1
    case LookPeak(_, _, _, _) => 0
  }

  /** An upper bound for the steps a thread has yet to take. */
  function StepsLeft(t: Thread): nat {
    match t
    case Idle(_) => 0
    case Changing(_, phase, _) =>
      (match phase
       case Lock => 7
       case Check => 6
       case LockOwner => 5
       case UpdateOwner => 4
       case UnlockOwner => 3
       case RaisePeak => 2
       case Unlock => 1)
    case Looking(why, look) => LookSteps(look) + if why.ErrorBudget? then 8 else 1
  }

  /** A thread that is not waiting for a mutex gets nearer its end with each step,
      and other threads' steps do not set it back: a call takes at most fifteen. */
  lemma StepsRunDown(s: Broker, e: Event, i: nat)
    requires i < |s.threads| && Next(s, e).Some? && !(e.Start? && e.thread == i)
    ensures var t := Next(s, e).value;
      && i < |t.threads| && StepsLeft(t.threads[i]) <= 14
      && if e.thread == i then StepsLeft(t.threads[i]) < StepsLeft(s.threads[i]) else t.threads[i] == s.threads[i]
  {
    hide Begin, Advance;
    StepsMoveLocks(s, e);
    if e.thread == i {
      OwnStepCounts(s, i);
    }
  }

  lemma OwnStepCounts(s: Broker, i: nat)
    requires i < |s.threads| && Advance(s, i).Some?
    ensures var t := Advance(s, i).value;
      i < |t.threads| ==> StepsLeft(t.threads[i]) < StepsLeft(s.threads[i])
  {
    hide StepsLeft, AdvanceChange, AdvanceLook;
    match s.threads[i]
    case Changing(job, phase, id) => ChangeCounts(s, i, job, phase, id);
    case Looking(why, look) => LookCounts(s, i, why, look);
    case Idle(_) =>
  }

  lemma ChangeCounts(s: Broker, i: nat, job: Job, phase: Phase, id: nat)
    requires i < |s.threads| && AdvanceChange(s, i, job, phase, id).Some?
    ensures var t := AdvanceChange(s, i, job, phase, id).value;
      i < |t.threads| ==> StepsLeft(t.threads[i]) < StepsLeft(Changing(job, phase, id))
  {
    hide Leases;
  }

  lemma LookCounts(s: Broker, i: nat, why: Why, look: Look)
    requires i < |s.threads| && AdvanceLook(s, i, why, look).Some?
    ensures var t := AdvanceLook(s, i, why, look).value;
      i < |t.threads| ==> StepsLeft(t.threads[i]) < StepsLeft(Looking(why, look))
  {
    hide OwnerAt, PeakAt;
  }
}
