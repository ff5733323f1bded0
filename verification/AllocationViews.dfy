/**
 What each event does to one allocation, said in terms of the state before it.  An allocation
 is looked at through its key, so the order in which rows were added does not matter.
 */
module AllocationViews {
  import opened Wrappers
  import opened Calendar
  import opened Records
  import opened Repository
  import opened Ledger
  import opened LedgerInvariant
  import opened LedgerSteps
  import opened LedgerRuns
  import opened Lifecycle
  import opened Admission

  // --- Runs succeed -----------------------------------------------------------

  ghost predicate InRange(db: Db, ts: seq<Turn>) {
    forall t :: t in ts ==> t.user < |db.users| && t.policy < |db.policies|
  }

  lemma {:induction false} TurnsSucceed(db: Db, ts: seq<Turn>, today: Date)
    requires Inv(db) && InRange(db, ts)
    ensures TakeTurns(db, ts, today).Success?
  {
    if ts != [] {
      var before, t := ts[..|ts| - 1], ts[|ts| - 1];
      assert t in ts;
      TurnsSucceed(db, before, today);
      TakeTurnsKeepsInv(db, before, today);
      TakeTurnsOnlyAccrue(db, before, today);
      TurnSucceeds(TakeTurns(db, before, today).value, t, today);
    }
  }

  lemma TurnSucceeds(db: Db, t: Turn, today: Date)
    requires UniqueKeys(db.allocations) && References(db) && t.user < |db.users| && t.policy < |db.policies|
    ensures TakeTurn(db, t, today).Success?
  {
  }

  lemma InAppend<T>(a: seq<T>, b: seq<T>, x: T)
    ensures x in a + b <==> x in a || x in b
  {
  }

  lemma {:induction false} TurnsAreAllPairs(users: seq<nat>, policies: seq<nat>, t: Turn)
    ensures t in Turns(users, policies) <==> t.user in users && t.policy in policies
  {
    if users != [] {
      var last := |users| - 1;
      TurnsAreAllPairs(users[..last], policies, t);
      Turns1ArePairs(users[last], policies, t);
      InAppend(Turns(users[..last], policies), Turns1(users[last], policies), t);
      assert users == users[..last] + [users[last]];
      InAppend(users[..last], [users[last]], t.user);
    }
  }

  lemma {:induction false} Turns1ArePairs(user: nat, policies: seq<nat>, t: Turn)
    ensures t in Turns1(user, policies) <==> t.user == user && t.policy in policies
  {
    if policies != [] {
      Turns1ArePairs(user, policies[..|policies| - 1], t);
    }
  }

  // --- What one allocation goes through ---------------------------------------

  // The allocation of k, if there is one.
  ghost function View(db: Db, k: Key): Option<Allocation> {
    match FindAllocation(db.allocations, k)
    case Row(i) => Some(db.allocations[i])
    case _ => None
  }

  ghost function OrFresh(a: Option<Allocation>, k: Key): Allocation {
    if a.Some? then a.value else Fresh(k, 0)
  }

  // What a turn under policy p does to an allocation.
  ghost function Accrue(a: Allocation, p: Policy, today: Date): Allocation {
    if ShouldAccrue(p.frequency, a.lastAccrual, today)
    then a.(allocatedDays := Accrued(a.allocatedDays, p), lastAccrual := Some(today)) else a
  }

  ghost predicate Hits(db: Db, t: Turn, today: Date, k: Key) {
    && t.user < |db.users| && t.policy < |db.policies|
    && Targets(db.policies[t.policy], db.users[t.user].designation)
    && k == Key(t.user, db.policies[t.policy].typ, Year(today))
  }

  ghost predicate CanOpen(db: Db, k: Key) {
    View(db, k).Some? || (k.user < |db.users| && k.typ < |db.types|)
  }

  // One turn, of whatever user and policy, changes the allocation it is about, opening it if
  // need be, and no other.
  lemma AccrueStepView(db: Db, user: nat, designation: Option<nat>, pid: nat, p: Policy, today: Date, k: Key)
    requires UniqueKeys(db.allocations)
    ensures View(Commit(db, AccrueStep(db, user, designation, pid, p, today)), k) ==
            if Targets(p, designation) && k == Key(user, p.typ, Year(today)) && CanOpen(db, k)
            then Some(Accrue(OrFresh(View(db, k), k), p, today)) else View(db, k)
  {
    var h := Key(user, p.typ, Year(today));
    if Targets(p, designation) && CanOpen(db, h) {
      OpenAtViews(db, h);
      OpenAtView(db, h, k);
      var grown := db.(allocations := OpenAt(db.allocations, h, 0));
      var i := FindAllocation(grown.allocations, h).id;
      assert Commit(db, AccrueStep(db, user, designation, pid, p, today)) == AccrueRow(grown, i, user, pid, p, today);
      AccrueRowView(grown, i, user, pid, p, today, k);
    }
  }

  lemma TurnView(db: Db, t: Turn, today: Date, k: Key)
    requires UniqueKeys(db.allocations) && References(db) && t.user < |db.users| && t.policy < |db.policies|
    ensures var d := TakeTurn(db, t, today);
            d.Success? && View(d.value, k) == if Hits(db, t, today, k)
                                              then Some(Accrue(OrFresh(View(db, k), k), db.policies[t.policy], today))
                                              else View(db, k)
  {
    AccrueStepView(db, t.user, db.users[t.user].designation, t.policy, db.policies[t.policy], today, k);
  }

  lemma OpenAtViews(db: Db, h: Key)
    requires UniqueKeys(db.allocations)
    ensures UniqueKeys(OpenAt(db.allocations, h, 0))
    ensures FindAllocation(OpenAt(db.allocations, h, 0), h) ==
            if HasKey(db.allocations, h) then FindAllocation(db.allocations, h) else Row(|db.allocations|)
  {
    OpenAtOpens(db.allocations, h, 0);
    assert UniqueKeys(OpenAt(db.allocations, h, 0));
  }

  lemma ViewOfRow(db: Db, i: nat)
    requires UniqueKeys(db.allocations) && i < |db.allocations|
    ensures View(db, db.allocations[i].key) == Some(db.allocations[i])
  {
  }

  // Rows at the same place, or no row in either table, give the same view.
  lemma SameView(db: Db, d: Db, k: Key)
    requires UniqueKeys(db.allocations) && UniqueKeys(d.allocations) && KeepsKeys(db.allocations, d.allocations)
    requires forall i :: 0 <= i < |db.allocations| && db.allocations[i].key == k ==> d.allocations[i] == db.allocations[i]
    requires forall i :: |db.allocations| <= i < |d.allocations| ==> d.allocations[i].key != k
    ensures View(d, k) == View(db, k)
  {
  }

  lemma OpenAtView(db: Db, h: Key, k: Key)
    requires UniqueKeys(db.allocations)
    ensures View(db.(allocations := OpenAt(db.allocations, h, 0)), k) ==
            if k == h then Some(OrFresh(View(db, k), k)) else View(db, k)
  {
  }

  lemma AccrueRowView(db: Db, i: nat, user: nat, pid: nat, p: Policy, today: Date, k: Key)
    requires UniqueKeys(db.allocations) && i < |db.allocations|
    ensures View(AccrueRow(db, i, user, pid, p, today), k) ==
            if k == db.allocations[i].key then Some(Accrue(db.allocations[i], p, today)) else View(db, k)
  {
    var d := AccrueRow(db, i, user, pid, p, today);
    assert KeepsKeys(db.allocations, d.allocations) && KeepsKeys(d.allocations, db.allocations);
    KeptHasKey(db.allocations, d.allocations, k);
    KeptHasKey(d.allocations, db.allocations, k);
    assert UniqueKeys(d.allocations);
    assert HasKey(db.allocations, db.allocations[i].key);
  }

  // A grant adds exactly its days to the allocation of its key, opening it if need be, and
  // leaves every other allocation alone.
  lemma GrantAddsDays(db: Db, user: nat, typ: nat, year: int, days: int, k: Key)
    requires UniqueKeys(db.allocations) && CanOpen(db, Key(user, typ, year)) && days > 0
    ensures var o := GrantDays(db, user, typ, year, days);
            && o.Success?
            && View(o.value, k) ==
               if k == Key(user, typ, year)
               then Some(OrFresh(View(db, k), k).(allocatedDays := OrFresh(View(db, k), k).allocatedDays + days))
               else View(db, k)
  {
    var h := Key(user, typ, year);
    var d := GrantDays(db, user, typ, year, days).value;
    assert UniqueKeys(d.allocations);
    if k == h {
      var i := match FindAllocation(db.allocations, h) case Row(i) => i case _ => |db.allocations|;
      assert d.allocations[i].key == k;
      ViewOfRow(d, i);
    } else {
      SameView(db, d, k);
    }
  }

  // --- Whole accrual runs -----------------------------------------------------

  ghost predicate HitBy(db: Db, ts: seq<Turn>, today: Date, k: Key) {
    exists t :: t in ts && Hits(db, t, today, k)
  }

  lemma HitByLast(db: Db, ts: seq<Turn>, today: Date, k: Key)
    requires ts != []
    ensures HitBy(db, ts, today, k) <==> HitBy(db, ts[..|ts| - 1], today, k) || Hits(db, ts[|ts| - 1], today, k)
  {
  }

  // The turn would accrue k as the run finds it.
  ghost predicate HitsDue(db: Db, t: Turn, today: Date, k: Key) {
    Hits(db, t, today, k)
    && ShouldAccrue(db.policies[t.policy].frequency, OrFresh(View(db, k), k).lastAccrual, today)
  }

  // The first of the turns that would accrue k as the run finds it.
  ghost function FirstDue(db: Db, ts: seq<Turn>, today: Date, k: Key): Option<Turn> {
    if ts == [] then None
    else
      var first := FirstDue(db, ts[..|ts| - 1], today, k);
      if first.Some? then first
      else if HitsDue(db, ts[|ts| - 1], today, k) then Some(ts[|ts| - 1]) else None
  }

  lemma {:induction false} FirstDueIsDue(db: Db, ts: seq<Turn>, today: Date, k: Key)
    ensures var first := FirstDue(db, ts, today, k);
            && (first.Some? ==> first.value in ts && HitsDue(db, first.value, today, k))
            && (first.None? ==> forall t :: t in ts ==> !HitsDue(db, t, today, k))
  {
    if ts != [] {
      FirstDueIsDue(db, ts[..|ts| - 1], today, k);
      assert ts == ts[..|ts| - 1] + [ts[|ts| - 1]];
    }
  }

  // What a run does to k: only its first due turn accrues, the others find the date served.
  ghost function AfterTurns(db: Db, ts: seq<Turn>, today: Date, k: Key): Option<Allocation> {
    if !HitBy(db, ts, today, k) then View(db, k)
    else
      var first := FirstDue(db, ts, today, k);
      var a := OrFresh(View(db, k), k);
      if first.Some? && first.value.policy < |db.policies|
      then Some(Accrue(a, db.policies[first.value.policy], today)) else Some(a)
  }

  lemma NextTurnView(db: Db, ts: seq<Turn>, today: Date, k: Key, p: Policy)
    requires ts != []
    requires Hits(db, ts[|ts| - 1], today, k) ==> p == db.policies[ts[|ts| - 1].policy]
    ensures AfterTurns(db, ts, today, k) ==
            var before := AfterTurns(db, ts[..|ts| - 1], today, k);
            if Hits(db, ts[|ts| - 1], today, k) then Some(Accrue(OrFresh(before, k), p, today)) else before
  {
    HitByLast(db, ts, today, k);
    FirstDueIsDue(db, ts[..|ts| - 1], today, k);
  }

  lemma {:induction false} TurnsView(db: Db, ts: seq<Turn>, today: Date, k: Key)
    requires Inv(db) && InRange(db, ts)
    ensures TakeTurns(db, ts, today).Success?
    ensures View(TakeTurns(db, ts, today).value, k) == AfterTurns(db, ts, today, k)
  {
    if ts != [] {
      var before, t := ts[..|ts| - 1], ts[|ts| - 1];
      assert t in ts;
      TurnsView(db, before, today, k);
      var b := TakeTurns(db, before, today).value;
      assert UniqueKeys(b.allocations) && References(b) by { TakeTurnsKeepsInv(db, before, today); }
      assert b.users == db.users && b.policies == db.policies by { TakeTurnsOnlyAccrue(db, before, today); }
      TurnView(b, t, today, k);
      assert Hits(b, t, today, k) == Hits(db, t, today, k);
      NextTurnView(db, ts, today, k, db.policies[t.policy]);
    }
  }

  // A run that names a user or policy that does not exist fails.
  lemma {:induction false} SuccessIsInRange(db: Db, ts: seq<Turn>, today: Date)
    requires TakeTurns(db, ts, today).Success?
    ensures InRange(db, ts)
  {
    if ts != [] {
      SuccessIsInRange(db, ts[..|ts| - 1], today);
      TakeTurnsOnlyAccrue(db, ts[..|ts| - 1], today);
      assert ts == ts[..|ts| - 1] + [ts[|ts| - 1]];
    }
  }

  // --- Every event ------------------------------------------------------------

  // After the allocations of a user and year have been opened.
  ghost function AfterOpening(db: Db, user: nat, year: int, k: Key): Option<Allocation> {
    if View(db, k).None? && k.user == user && k.year == year && k.typ < |db.types|
    then Some(Fresh(k, db.types[k.typ].defaultQuota)) else View(db, k)
  }

  ghost function AddUsed(a: Option<Allocation>, days: int): Option<Allocation> {
    if a.Some? then Some(a.value.(usedDays := a.value.usedDays + days)) else None
  }

  ghost predicate CanDecide(db: Db, id: nat, status: Status, approver: nat) {
    && approver < |db.users| && id < |db.requests|
    && status in {Approved, Rejected} && db.requests[id].status == Pending
  }

  // Request id draws on k and its days are counted.
  ghost predicate DrawsPaid(db: Db, id: nat, k: Key) {
    id < |db.requests| && db.requests[id].DrawsOn() == k && db.IsPaid(k.typ)
  }

  // A filed request that is approved at once takes its days from k.
  ghost predicate ChargedAtOnce(db: Db, user: nat, p: LeavePayload, k: Key) {
    && k == Key(user, p.typ, Year(p.start)) && db.IsPaid(k.typ)
    && ApprovedAtOnce(db.types[k.typ], DatesCharged(db, p), p.half)
  }

  // The allocation of k after an event, in terms of the state before it.
  ghost function ViewAfter(db: Db, ev: Event, k: Key): Option<Allocation> {
    match ev
    case BalancesViewed(user, year) =>
      if user < |db.users| then AfterOpening(db, user, year, k) else View(db, k)
    case LeaveRequested(user, p) =>
      if !Admissible(db, user, p) then View(db, k)
      else
        AddUsed(AfterOpening(db, user, Year(p.start), k),
                if ChargedAtOnce(db, user, p, k) then DaysCharged(db, p) else 0)
    case StatusSet(id, status, approver) =>
      if CanDecide(db, id, status, approver) && status == Approved && DrawsPaid(db, id, k)
      then AddUsed(View(db, k), db.requests[id].total) else View(db, k)
    case LeaveWithdrawn(id, user, today) =>
      if CanCancel(db, id, user, today) && db.requests[id].status == Approved && DrawsPaid(db, id, k)
      then AddUsed(View(db, k), -db.requests[id].total) else View(db, k)
    case DaysGranted(user, typ, year, days) =>
      if k == Key(user, typ, year) && days > 0 && CanOpen(db, k)
      then Some(OrFresh(View(db, k), k).(allocatedDays := OrFresh(View(db, k), k).allocatedDays + days))
      else View(db, k)
    case AccrualTurn(user, designation, pid, p, today) =>
      if Targets(p, designation) && k == Key(user, p.typ, Year(today)) && CanOpen(db, k)
      then Some(Accrue(OrFresh(View(db, k), k), p, today)) else View(db, k)
    case AccrualRun(users, policies, today) =>
      var ts := Turns(users, policies);
      if InRange(db, ts) then AfterTurns(db, ts, today, k) else View(db, k)
    case _ => View(db, k)
  }

  lemma OpeningView(db: Db, user: nat, year: int, k: Key)
    requires UniqueKeys(db.allocations) && UniqueKeys(OpenYear(db, user, year))
    ensures View(WithAllocations(db, OpenYear(db, user, year)), k) == AfterOpening(db, user, year, k)
  {
    var grown := WithAllocations(db, OpenYear(db, user, year));
    OpenTypesOpens(db.allocations, db.types, user, year, |db.types|);
    if HasKey(grown.allocations, k) {
      var i: nat :| i < |grown.allocations| && grown.allocations[i].key == k;
      ViewOfRow(grown, i);
      if i < |db.allocations| {
        ViewOfRow(db, i);
      } else {
        assert OpenedRow(grown.allocations[i], db.types, user, year, |db.types|);
      }
    } else {
      KeptHasKey(db.allocations, grown.allocations, k);
    }
  }

  lemma ShiftView(db: Db, a: seq<Allocation>, b: seq<Allocation>, h: Key, delta: int, k: Key)
    requires UniqueKeys(a) && Shifted(a, b, h, delta)
    ensures View(WithAllocations(db, b), k) ==
            AddUsed(View(WithAllocations(db, a), k), if k == h then delta else 0)
  {
    assert UniqueKeys(b) && KeepsKeys(a, b) && KeepsKeys(b, a);
    KeptHasKey(a, b, k);
    KeptHasKey(b, a, k);
  }

  // A change of the used days of h, if it is committed.
  lemma ShiftedOutcome(db: Db, o: Outcome, h: Key, delta: int, k: Key)
    requires UniqueKeys(db.allocations) && (o.Success? ==> Shifted(db.allocations, o.value.allocations, h, delta))
    ensures View(Commit(db, o), k) ==
            if o.Success? && k == h && delta != 0 then AddUsed(View(db, k), delta) else View(db, k)
  {
    if o.Success? {
      ShiftView(db, db.allocations, o.value.allocations, h, delta, k);
    }
  }

  lemma ApplyView(db: Db, user: nat, p: LeavePayload, k: Key)
    requires Inv(db)
    ensures View(Commit(db, ApplyLeave(db, user, p)), k) == ViewAfter(db, LeaveRequested(user, p), k)
  {
    CheckIsAdmission(db, user, p);
    if Admissible(db, user, p) {
      ThresholdInDates(db.types[p.typ], db, p);
      FileView(db, user, p, DaysCharged(db, p), k);
    }
  }

  lemma FileView(db: Db, user: nat, p: LeavePayload, total: int, k: Key)
    requires Inv(db) && user < |db.users| && p.typ < |db.types|
    ensures var r := NewRequest(db, user, p, total);
            View(Commit(db, FileRequest(db, user, p, total)), k) ==
            AddUsed(AfterOpening(db, user, Year(p.start), k), if k == r.DrawsOn() then ChargeOf(db, r) else 0)
  {
    var grown := OpenYear(db, user, Year(p.start));
    var r := NewRequest(db, user, p, total);
    assert UniqueKeys(grown) by { OpenTypesKeepsInv(db, user, Year(p.start), |db.types|); }
    FileRequestCharges(db, user, p, total);
    OpeningView(db, user, Year(p.start), k);
    ShiftView(db, grown, FileRequest(db, user, p, total).value.allocations, r.DrawsOn(), ChargeOf(db, r), k);
  }

  lemma DecisionView(db: Db, id: nat, status: Status, approver: nat, k: Key)
    requires Inv(db)
    ensures View(Commit(db, UpdateStatus(db, id, status, approver)), k) ==
            if CanDecide(db, id, status, approver) && status == Approved && DrawsPaid(db, id, k)
            then AddUsed(View(db, k), db.requests[id].total) else View(db, k)
  {
    DecisionRule(db, id, status, approver);
    if CanDecide(db, id, status, approver) {
      UpdateStatusEffect(db, id, status, approver);
      var r2 := db.requests[id].(status := status, approver := Some(approver));
      ShiftedOutcome(db, UpdateStatus(db, id, status, approver), r2.DrawsOn(), ChargeOf(db, r2), k);
    }
  }

  // A committed or rolled back cancellation gives back what the request had taken.
  lemma GivenBack(db: Db, o: Outcome, id: nat, k: Key)
    requires UniqueKeys(db.allocations) && id < |db.requests| && db.requests[id].total > 0
    requires o.Success? ==>
               Shifted(db.allocations, o.value.allocations, db.requests[id].DrawsOn(), -ChargeOf(db, db.requests[id]))
    ensures View(Commit(db, o), k) ==
            if o.Success? && db.requests[id].status == Approved && DrawsPaid(db, id, k)
            then AddUsed(View(db, k), -db.requests[id].total) else View(db, k)
  {
    ShiftedOutcome(db, o, db.requests[id].DrawsOn(), -ChargeOf(db, db.requests[id]), k);
  }

  lemma CancellationView(db: Db, id: nat, user: nat, today: Date, k: Key)
    requires Inv(db)
    ensures View(Commit(db, CancelLeave(db, id, user, today)), k) ==
            if CanCancel(db, id, user, today) && db.requests[id].status == Approved && DrawsPaid(db, id, k)
            then AddUsed(View(db, k), -db.requests[id].total) else View(db, k)
  {
    CancellationRule(db, id, user, today);
    if CanCancel(db, id, user, today) {
      assert RequestState(db.requests[id]);
      CancelLeaveEffect(db, id, user, today);
      GivenBack(db, CancelLeave(db, id, user, today), id, k);
    }
  }

  lemma GrantView(db: Db, user: nat, typ: nat, year: int, days: int, k: Key)
    requires UniqueKeys(db.allocations)
    ensures View(Commit(db, GrantDays(db, user, typ, year, days)), k) ==
            ViewAfter(db, DaysGranted(user, typ, year, days), k)
  {
    if days > 0 && CanOpen(db, Key(user, typ, year)) {
      GrantAddsDays(db, user, typ, year, days, k);
    } else {
      assert GrantDays(db, user, typ, year, days).Failure?;
    }
  }

  lemma CommittedTurnsView(db: Db, ts: seq<Turn>, today: Date, k: Key)
    requires Inv(db)
    ensures View(Commit(db, TakeTurns(db, ts, today)), k) ==
            if InRange(db, ts) then AfterTurns(db, ts, today, k) else View(db, k)
  {
    if InRange(db, ts) {
      TurnsView(db, ts, today, k);
    } else if TakeTurns(db, ts, today).Success? {
      SuccessIsInRange(db, ts, today);
    }
  }

  lemma ViewingView(db: Db, user: nat, year: int, k: Key)
    requires Inv(db)
    ensures View(Commit(db, ViewBalances(db, user, year)), k) == ViewAfter(db, BalancesViewed(user, year), k)
  {
    if user < |db.users| {
      assert UniqueKeys(OpenYear(db, user, year)) by { OpenTypesKeepsInv(db, user, year, |db.types|); }
      OpeningView(db, user, year, k);
    }
  }

  lemma DecisionEventView(db: Db, id: nat, status: Status, approver: nat, k: Key)
    requires Inv(db)
    ensures View(Step(db, StatusSet(id, status, approver)), k) == ViewAfter(db, StatusSet(id, status, approver), k)
  {
    DecisionView(db, id, status, approver, k);
    AfterDecision(db, id, status, approver, k, View(Commit(db, UpdateStatus(db, id, status, approver)), k));
  }

  lemma AfterDecision(db: Db, id: nat, status: Status, approver: nat, k: Key, a: Option<Allocation>)
    requires a == View(Commit(db, UpdateStatus(db, id, status, approver)), k)
    requires a == if CanDecide(db, id, status, approver) && status == Approved && DrawsPaid(db, id, k)
                  then AddUsed(View(db, k), db.requests[id].total) else View(db, k)
    ensures View(Step(db, StatusSet(id, status, approver)), k) == ViewAfter(db, StatusSet(id, status, approver), k)
  {
  }

  lemma AfterCancellation(db: Db, id: nat, user: nat, today: Date, k: Key, a: Option<Allocation>)
    requires a == View(Commit(db, CancelLeave(db, id, user, today)), k)
    requires a == if CanCancel(db, id, user, today) && db.requests[id].status == Approved && DrawsPaid(db, id, k)
                  then AddUsed(View(db, k), -db.requests[id].total) else View(db, k)
    ensures View(Step(db, LeaveWithdrawn(id, user, today)), k) == ViewAfter(db, LeaveWithdrawn(id, user, today), k)
  {
  }

  lemma CancellationEventView(db: Db, id: nat, user: nat, today: Date, k: Key)
    requires Inv(db)
    ensures View(Step(db, LeaveWithdrawn(id, user, today)), k) == ViewAfter(db, LeaveWithdrawn(id, user, today), k)
  {
    CancellationView(db, id, user, today, k);
    AfterCancellation(db, id, user, today, k, View(Commit(db, CancelLeave(db, id, user, today)), k));
  }

  lemma AfterRun(db: Db, users: seq<nat>, policies: seq<nat>, today: Date, k: Key, ts: seq<Turn>)
    requires ts == Turns(users, policies)
    requires View(Commit(db, TakeTurns(db, ts, today)), k) ==
             if InRange(db, ts) then AfterTurns(db, ts, today, k) else View(db, k)
    ensures View(Step(db, AccrualRun(users, policies, today)), k) == ViewAfter(db, AccrualRun(users, policies, today), k)
  {
  }

  lemma RunEventView(db: Db, users: seq<nat>, policies: seq<nat>, today: Date, k: Key)
    requires Inv(db)
    ensures View(Step(db, AccrualRun(users, policies, today)), k) == ViewAfter(db, AccrualRun(users, policies, today), k)
  {
    CommittedTurnsView(db, Turns(users, policies), today, k);
    AfterRun(db, users, policies, today, k, Turns(users, policies));
  }

  lemma TableEventView(db: Db, ev: Event, k: Key)
    requires ev.PolicySet? || ev.HolidayAdded? || ev.UserPut?
    ensures View(Step(db, ev), k) == ViewAfter(db, ev, k)
  {
  }

  // From any state of the system, every event does to every allocation what ViewAfter says.
  lemma StepView(db: Db, ev: Event, k: Key)
    requires Inv(db)
    ensures View(Step(db, ev), k) == ViewAfter(db, ev, k)
  {
    if ev.BalancesViewed? {
      ViewingView(db, ev.user, ev.year, k);
    } else if ev.DaysGranted? {
      GrantView(db, ev.user, ev.typ, ev.year, ev.days, k);
    } else if ev.AccrualTurn? {
      AccrueStepView(db, ev.user, ev.designation, ev.pid, ev.policy, ev.today, k);
    } else if ev.AccrualRun? {
      RunEventView(db, ev.users, ev.policies, ev.today, k);
    } else if ev.LeaveRequested? {
      ApplyView(db, ev.user, ev.payload, k);
    } else if ev.StatusSet? {
      DecisionEventView(db, ev.request, ev.status, ev.approver, k);
    } else if ev.LeaveWithdrawn? {
      CancellationEventView(db, ev.request, ev.user, ev.today, k);
    } else {
      TableEventView(db, ev, k);
    }
  }

  // --- Settings, years and openings -------------------------------------------

  ghost predicate KeepsSettings(ev: Event) {
    !ev.UserPut? && !ev.PolicySet?
  }

  lemma SettingsKept(db: Db, ev: Event)
    requires KeepsSettings(ev)
    ensures Step(db, ev).users == db.users && Step(db, ev).policies == db.policies
  {
    match ev
    case AccrualTurn(user, designation, pid, policy, today) =>
      AccrueStepOnlyAccrues(db, user, designation, pid, policy, today);
    case AccrualRun(users, policies, today) => TakeTurnsOnlyAccrue(db, Turns(users, policies), today);
    case _ =>
  }

  lemma {:induction false} RunKeepsSettings(db: Db, evs: seq<Event>)
    requires forall e :: 0 <= e < |evs| ==> KeepsSettings(evs[e])
    ensures Run(db, evs).users == db.users && Run(db, evs).policies == db.policies
  {
    if evs != [] {
      RunKeepsSettings(db, evs[..|evs| - 1]);
      SettingsKept(Run(db, evs[..|evs| - 1]), evs[|evs| - 1]);
    }
  }

  ghost predicate LastInYear(a: Allocation, y: int) {
    a.lastAccrual.Some? ==> Year(a.lastAccrual.value) == y
  }

  lemma ViewInYear(db: Db, k: Key)
    requires AccrualHistories(db.allocations, db.audit)
    ensures LastInYear(OrFresh(View(db, k), k), k.year)
  {
  }

  // The days an event opens k with, if it opens it: viewing balances and applying use the
  // default quota, grants and accruals start from zero.
  ghost function OpensWith(db: Db, ev: Event, k: Key): int {
    if (ev.BalancesViewed? || ev.LeaveRequested?) && k.typ < |db.types| then db.types[k.typ].defaultQuota else 0
  }

  // The days k had when the run began, or was opened with during the run.
  ghost function Opened(db: Db, evs: seq<Event>, k: Key): int {
    if evs == [] then OrFresh(View(db, k), k).allocatedDays
    else
      var before := Run(db, evs[..|evs| - 1]);
      if View(before, k).Some? then Opened(db, evs[..|evs| - 1], k) else OpensWith(before, evs[|evs| - 1], k)
  }
}
