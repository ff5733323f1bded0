/** Exactly when a balance falls below zero. */
module Debts {
  import opened Wrappers
  import opened Calendar
  import opened Records
  import opened Ledger
  import opened LedgerInvariant
  import opened LedgerSteps
  import opened LedgerRuns
  import opened Admission
  import opened AllocationViews

  ghost predicate Overdrawn(a: Option<Allocation>) {
    a.Some? && a.value.Remaining() < 0
  }

  ghost predicate InDebt(db: Db, k: Key) {
    Overdrawn(View(db, k))
  }

  // Viewing balances or filing a request opens k with a negative default quota.
  ghost predicate OpensBelowZero(db: Db, user: nat, year: int, k: Key) {
    && View(db, k).None? && k.user == user && k.year == year
    && k.typ < |db.types| && db.types[k.typ].defaultQuota < 0
  }

  // An accrual is due, and its policy's quota lies below the floor.
  ghost predicate CutsBelow(a: Allocation, p: Policy, today: Date, floor: int) {
    ShouldAccrue(p.frequency, a.lastAccrual, today) && p.maxQuota.Some? && p.maxQuota.value < floor
  }

  // The turn accrues k under such a policy.
  ghost predicate TurnCutsBelow(db: Db, ev: Event, k: Key, floor: int)
    requires ev.AccrualTurn?
  {
    && Targets(ev.policy, ev.designation) && k == Key(ev.user, ev.policy.typ, Year(ev.today)) && CanOpen(db, k)
    && CutsBelow(OrFresh(View(db, k), k), ev.policy, ev.today, floor)
  }

  // The first turn of the run that is due for k accrues it under such a policy.
  ghost predicate RunCutsBelow(db: Db, ev: Event, k: Key, floor: int)
    requires ev.AccrualRun?
  {
    var ts := Turns(ev.users, ev.policies);
    && InRange(db, ts)
    && var first := FirstDue(db, ts, ev.today, k);
       && first.Some? && first.value.policy < |db.policies|
       && CutsBelow(OrFresh(View(db, k), k), db.policies[first.value.policy], ev.today, floor)
  }

  // What a caller can check beforehand: the event approves more days than remain, or accrues
  // to a quota below the days used, or opens an allocation with a negative default quota.
  ghost predicate Overdraws(db: Db, ev: Event, k: Key) {
    match ev
    case StatusSet(id, status, approver) =>
      CanDecide(db, id, status, approver) && status == Approved && DrawsPaid(db, id, k)
      && db.requests[id].total > OrFresh(View(db, k), k).Remaining()
    case AccrualTurn(_, _, _, _, _) => TurnCutsBelow(db, ev, k, OrFresh(View(db, k), k).usedDays)
    case AccrualRun(_, _, _) => RunCutsBelow(db, ev, k, OrFresh(View(db, k), k).usedDays)
    case BalancesViewed(user, year) => user < |db.users| && OpensBelowZero(db, user, year, k)
    case LeaveRequested(user, p) => Admissible(db, user, p) && OpensBelowZero(db, user, Year(p.start), k)
    case _ => false
  }

  // The policies a turn carries were stored with a positive rate.
  ghost predicate WellFormed(ev: Event) {
    ev.AccrualTurn? ==> ev.policy.rate > 0
  }

  // --- One step ---------------------------------------------------------------

  lemma AccrualCuts(a: Allocation, p: Policy, today: Date)
    requires p.rate > 0
    ensures a.compOff == 0 && a.Remaining() >= 0 ==>
              (Accrue(a, p, today).Remaining() < 0 <==> CutsBelow(a, p, today, a.usedDays))
    ensures a.allocatedDays >= 0 ==> (Accrue(a, p, today).allocatedDays < 0 <==> CutsBelow(a, p, today, 0))
  {
  }

  // What every reachable state makes of the allocation of k: used days and compensatory
  // credit never fall below zero, and the balance is what an application may still take.
  ghost predicate SoundView(db: Db, k: Key) {
    && (View(db, k).Some? ==>
          && View(db, k).value.compOff == 0 && View(db, k).value.usedDays >= 0
          && k.typ < |db.types| && View(db, k).value.Remaining() == Available(db, k))
    && (k.typ < |db.types| && View(db, k).None? ==> Available(db, k) == db.types[k.typ].defaultQuota)
  }

  lemma RowIsSound(db: Db, k: Key)
    requires UniqueKeys(db.allocations) && UsedDays(db.types, db.requests, db.allocations)
    requires RequestStates(db.requests) && References(db)
    ensures SoundView(db, k)
  {
    SumNonNegative(db.requests, k);
  }

  lemma ViewIsSound(db: Db, k: Key)
    requires Inv(db)
    ensures SoundView(db, k)
  {
    RowIsSound(db, k);
  }

  // What is charged at once fits what is available.
  lemma ChargeFits(db: Db, user: nat, p: LeavePayload, k: Key)
    requires Admissible(db, user, p) && ChargedAtOnce(db, user, p, k)
    ensures 0 < DaysCharged(db, p) <= Available(db, k)
  {
  }

  lemma RequestDebt(db: Db, user: nat, p: LeavePayload, k: Key)
    requires SoundView(db, k) && !InDebt(db, k)
    ensures Overdrawn(ViewAfter(db, LeaveRequested(user, p), k)) <==> Overdraws(db, LeaveRequested(user, p), k)
  {
    if Admissible(db, user, p) && ChargedAtOnce(db, user, p, k) {
      ChargeFits(db, user, p, k);
    }
  }

  lemma TurnDebt(db: Db, ev: Event, k: Key)
    requires SoundView(db, k) && !InDebt(db, k) && ev.AccrualTurn? && ev.policy.rate > 0
    ensures Overdrawn(ViewAfter(db, ev, k)) <==> Overdraws(db, ev, k)
  {
    AccrualCuts(OrFresh(View(db, k), k), ev.policy, ev.today);
  }

  lemma RunDebt(db: Db, ev: Event, k: Key)
    requires SoundView(db, k) && !InDebt(db, k) && ev.AccrualRun?
    requires forall i :: 0 <= i < |db.policies| ==> db.policies[i].rate > 0
    ensures Overdrawn(ViewAfter(db, ev, k)) <==> Overdraws(db, ev, k)
  {
    var ts := Turns(ev.users, ev.policies);
    var first := FirstDue(db, ts, ev.today, k);
    FirstDueIsDue(db, ts, ev.today, k);
    if first.Some? && first.value.policy < |db.policies| {
      AccrualCuts(OrFresh(View(db, k), k), db.policies[first.value.policy], ev.today);
    }
  }

  lemma OtherDebt(db: Db, ev: Event, k: Key)
    requires SoundView(db, k) && !InDebt(db, k) && RequestStates(db.requests)
    requires !ev.LeaveRequested? && !ev.AccrualTurn? && !ev.AccrualRun?
    requires DrawsRows(db, k)
    ensures Overdrawn(ViewAfter(db, ev, k)) <==> Overdraws(db, ev, k)
  {
    if ev.LeaveWithdrawn? {
      assert ev.request < |db.requests| ==> RequestState(db.requests[ev.request]);
    }
  }

  // A request that draws on k finds the allocation of k.
  ghost predicate DrawsRows(db: Db, k: Key) {
    forall id: nat :: id < |db.requests| && db.requests[id].DrawsOn() == k ==> View(db, k).Some?
  }

  lemma RequestsFindRows(db: Db, k: Key)
    requires Inv(db)
    ensures DrawsRows(db, k)
  {
  }

  // From a state in which k is not in debt, a step puts it in debt exactly when it overdraws.
  lemma DebtRule(db: Db, ev: Event, k: Key)
    requires Inv(db) && WellFormed(ev) && !InDebt(db, k)
    ensures InDebt(Step(db, ev), k) <==> Overdraws(db, ev, k)
  {
    StepView(db, ev, k);
    ViewIsSound(db, k);
    if ev.LeaveRequested? {
      RequestDebt(db, ev.user, ev.payload, k);
    } else if ev.AccrualTurn? {
      TurnDebt(db, ev, k);
    } else if ev.AccrualRun? {
      RunDebt(db, ev, k);
    } else {
      RequestsFindRows(db, k);
      OtherDebt(db, ev, k);
    }
  }

  // --- Whole runs -------------------------------------------------------------

  // k is in debt after no event of the run, nor before it.
  ghost predicate NeverInDebt(db: Db, evs: seq<Event>, k: Key) {
    && !InDebt(Run(db, evs), k)
    && (evs != [] ==> NeverInDebt(db, evs[..|evs| - 1], k))
  }

  // No event of the run overdraws k when its turn comes.
  ghost predicate NeverOverdraws(db: Db, evs: seq<Event>, k: Key) {
    evs != [] ==>
      && NeverOverdraws(db, evs[..|evs| - 1], k)
      && !Overdraws(Run(db, evs[..|evs| - 1]), evs[|evs| - 1], k)
  }

  // A run keeps k out of debt throughout exactly when none of its events overdraws it.
  lemma {:induction false} RunDebtRule(db: Db, evs: seq<Event>, k: Key)
    requires Inv(db) && !InDebt(db, k) && forall e :: 0 <= e < |evs| ==> WellFormed(evs[e])
    ensures NeverInDebt(db, evs, k) <==> NeverOverdraws(db, evs, k)
  {
    if evs != [] {
      var before := evs[..|evs| - 1];
      RunDebtRule(db, before, k);
      if NeverInDebt(db, before, k) {
        assert Inv(Run(db, before)) by { RunKeepsInv(db, before); }
        DebtRule(Run(db, before), evs[|evs| - 1], k);
      }
    }
  }

  // --- The column checks of the schema document -------------------------------

  // The event opens k with a negative default quota, or accrues it to a negative quota.
  ghost predicate AllocatesBelowZero(db: Db, ev: Event, k: Key) {
    match ev
    case AccrualTurn(_, _, _, _, _) => TurnCutsBelow(db, ev, k, 0)
    case AccrualRun(_, _, _) => RunCutsBelow(db, ev, k, 0)
    case BalancesViewed(user, year) => user < |db.users| && OpensBelowZero(db, user, year, k)
    case LeaveRequested(user, p) => Admissible(db, user, p) && OpensBelowZero(db, user, Year(p.start), k)
    case _ => false
  }

  ghost predicate AllocatedBelowZero(a: Option<Allocation>) {
    a.Some? && a.value.allocatedDays < 0
  }

  lemma RunAllocates(db: Db, ev: Event, k: Key)
    requires !AllocatedBelowZero(View(db, k)) && ev.AccrualRun?
    requires forall i :: 0 <= i < |db.policies| ==> db.policies[i].rate > 0
    ensures AllocatedBelowZero(ViewAfter(db, ev, k)) <==> AllocatesBelowZero(db, ev, k)
  {
    var ts := Turns(ev.users, ev.policies);
    var first := FirstDue(db, ts, ev.today, k);
    FirstDueIsDue(db, ts, ev.today, k);
    if first.Some? && first.value.policy < |db.policies| {
      AccrualCuts(OrFresh(View(db, k), k), db.policies[first.value.policy], ev.today);
    }
  }

  lemma OtherAllocates(db: Db, ev: Event, k: Key)
    requires !AllocatedBelowZero(View(db, k)) && !ev.AccrualRun? && WellFormed(ev)
    ensures AllocatedBelowZero(ViewAfter(db, ev, k)) <==> AllocatesBelowZero(db, ev, k)
  {
    if ev.AccrualTurn? {
      AccrualCuts(OrFresh(View(db, k), k), ev.policy, ev.today);
    }
  }

  // Used days and compensatory credit are never negative; the allocated days become so exactly
  // when a default or an accrual quota is.
  lemma ColumnChecks(db: Db, ev: Event, k: Key)
    requires Inv(db) && WellFormed(ev) && !AllocatedBelowZero(View(db, k))
    ensures View(Step(db, ev), k).Some? ==>
              View(Step(db, ev), k).value.usedDays >= 0 && View(Step(db, ev), k).value.compOff >= 0
    ensures AllocatedBelowZero(View(Step(db, ev), k)) <==> AllocatesBelowZero(db, ev, k)
  {
    assert SoundView(Step(db, ev), k) by {
      StepKeepsInv(db, ev);
      ViewIsSound(Step(db, ev), k);
    }
    StepView(db, ev, k);
    if ev.AccrualRun? {
      RunAllocates(db, ev, k);
    } else {
      OtherAllocates(db, ev, k);
    }
  }

  // --- Each way is met --------------------------------------------------------

  lemma ApprovedView(db: Db, id: nat, approver: nat)
    requires Inv(db) && approver < |db.users| && id < |db.requests|
    requires db.requests[id].status == Pending && db.IsPaid(db.requests[id].typ)
    ensures var d := Step(db, StatusSet(id, Approved, approver));
            var k := db.requests[id].DrawsOn();
            && View(d, k) == AddUsed(View(db, k), db.requests[id].total)
            && d.users == db.users && d.types == db.types && |d.requests| == |db.requests|
            && forall j :: 0 <= j < |db.requests| && j != id ==> d.requests[j] == db.requests[j]
  {
    StepView(db, StatusSet(id, Approved, approver), db.requests[id].DrawsOn());
    UpdateStatusEffect(db, id, Approved, approver);
  }

  lemma SumOverdraws(a: Option<Allocation>, x: int, y: int)
    requires a.Some?
    ensures Overdrawn(AddUsed(AddUsed(a, x), y)) <==> a.value.Remaining() < x + y
  {
  }

  // Nothing is held back for pending requests, and an approval does not look at the balance:
  // two of them on one allocation overdraw it exactly when together they exceed what remains.
  lemma TwoApprovalsOverdraw(db: Db, i: nat, j: nat, approver: nat)
    requires Inv(db) && approver < |db.users| && i < |db.requests| && j < |db.requests| && i != j
    requires db.requests[i].status == Pending && db.requests[j].status == Pending
    requires db.requests[i].DrawsOn() == db.requests[j].DrawsOn() && db.IsPaid(db.requests[i].typ)
    ensures var k := db.requests[i].DrawsOn();
            InDebt(Step(Step(db, StatusSet(i, Approved, approver)), StatusSet(j, Approved, approver)), k) <==>
            OrFresh(View(db, k), k).Remaining() < db.requests[i].total + db.requests[j].total
  {
    var k := db.requests[i].DrawsOn();
    var d := Step(db, StatusSet(i, Approved, approver));
    assert View(db, k).Some? by { RequestsFindRows(db, k); }
    SumOverdraws(View(db, k), db.requests[i].total, db.requests[j].total);
    ApprovedView(db, i, approver);
    assert Inv(d) by { StepKeepsInv(db, StatusSet(i, Approved, approver)); }
    ApprovedView(d, j, approver);
  }

}
