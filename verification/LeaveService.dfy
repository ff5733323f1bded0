/**
 The leave service as an object over its tables (app/modules/leaves/service.py).  Each method
 is one transaction: it changes the tables step by step and restores them when it fails.
 */
module LeaveServices {
  import opened Wrappers
  import opened Calendar
  import opened WorkingDays
  import opened Records
  import opened Repository
  import opened Ledger
  import opened LedgerInvariant
  import opened LedgerSteps
  import opened LedgerRuns
  import opened Admission
  import opened AllocationViews

  class LeaveService {
    var users: seq<User>
    var types: seq<LeaveType>
    var holidays: seq<Date>
    var requests: seq<Request>
    var allocations: seq<Allocation>
    var policies: seq<Policy>
    var approvals: seq<Approval>
    var audit: seq<AuditEntry>

    // The tables the service started from and the operations it has performed since.
    ghost var origin: Db
    ghost var events: seq<Event>

    function State(): Db
      reads this
    {
      Db(users, types, holidays, requests, allocations, policies, approvals, audit)
    }

    // The tables are those of a run of the system.
    ghost predicate Valid()
      reads this
    {
      Initial(origin) && State() == Run(origin, events)
    }

    constructor (users: seq<User>, types: seq<LeaveType>, holidays: seq<Date>, policies: seq<Policy>)
      requires forall i :: 0 <= i < |policies| ==> policies[i].typ < |types| && policies[i].rate > 0
      requires UniquePolicies(policies)
      ensures Valid() && events == []
      ensures State() == Db(users, types, holidays, [], [], policies, [], [])
    {
      this.users, this.types, this.holidays, this.policies := users, types, holidays, policies;
      requests, allocations, approvals, audit := [], [], [], [];
      origin, events := Db(users, types, holidays, [], [], policies, [], []), [];
    }

    // Every theorem about reachable tables is a theorem about a valid service.
    lemma ValidMeansInv()
      requires Valid()
      ensures Inv(State())
    {
      ReachableInv(origin, events);
    }

    method Rollback(saved: Db)
      modifies this
      ensures State() == saved && origin == old(origin) && events == old(events)
    {
      users, types, holidays, requests := saved.users, saved.types, saved.holidays, saved.requests;
      allocations, policies, approvals, audit := saved.allocations, saved.policies, saved.approvals, saved.audit;
    }

    // Note the operation that has just been performed.
    ghost method Record(ev: Event, before: Db)
      requires Initial(origin) && before == Run(origin, events) && State() == Step(before, ev)
      modifies this`events
      ensures Valid() && events == old(events) + [ev]
    {
      events := events + [ev];
      assert events[..|events| - 1] == old(events);
    }

    // --- get_user_balances ----------------------------------------------------

    // The dict comprehension over the rows of one user and year: leave type to row.
    method ExistingTypes(user: nat, year: int) returns (typeMap: map<nat, nat>)
      ensures typeMap == TypeMap(allocations, user, year)
    {
      typeMap := map[];
      for i := 0 to |allocations|
        invariant typeMap == TypeMap(allocations[..i], user, year)
      {
        var k := allocations[i].key;
        assert allocations[..i + 1][..i] == allocations[..i];
        if k.user == user && k.year == year {
          typeMap := typeMap[k.typ := i];
        }
      }
      assert allocations[..|allocations|] == allocations;
    }

    // One leave type: open its allocation with the default quota when there is none.
    method OpenType(typeMap: map<nat, nat>, user: nat, t: nat, year: int) returns (typeMap2: map<nat, nat>, b: Balance)
      requires t < |types| && typeMap == TypeMap(allocations, user, year)
      modifies this`allocations
      ensures allocations == OpenAt(old(allocations), Key(user, t, year), types[t].defaultQuota)
      ensures typeMap2 == TypeMap(allocations, user, year)
      ensures HasKey(allocations, Key(user, t, year)) && b == BalanceAt(allocations, Key(user, t, year))
    {
      var k := Key(user, t, year);
      typeMap2 := typeMap;
      TypeMapFindsLastRow(allocations, user, year, t);
      OpenAtOpens(allocations, k, types[t].defaultQuota);
      if t !in typeMap {
        TypeMapAppend(allocations, Fresh(k, types[t].defaultQuota), user, year);
        typeMap2 := typeMap[t := |allocations|];
        allocations := allocations + [Fresh(k, types[t].defaultQuota)];
        TypeMapFindsLastRow(allocations, user, year, t);
      }
      b := Balance(t, allocations[typeMap2[t]].Remaining());
    }

    method OpenBalances(user: nat, year: int) returns (balances: seq<Balance>)
      modifies this`allocations
      ensures allocations == OpenYear(old(State()), user, year)
      ensures balances == Balances(old(allocations), types, user, year, |types|)
    {
      var leaveTypes := types;
      ghost var start := allocations;
      var typeMap: map<nat, nat> := ExistingTypes(user, year);
      balances := [];
      for t := 0 to |leaveTypes|
        invariant types == leaveTypes
        invariant allocations == OpenTypes(start, leaveTypes, user, year, t)
        invariant balances == Balances(start, leaveTypes, user, year, t)
        invariant typeMap == TypeMap(allocations, user, year)
      {
        var b;
        typeMap, b := OpenType(typeMap, user, t, year);
        balances := balances + [b];
      }
    }

    method GetUserBalances(user: nat, year: int) returns (r: Result<seq<Balance>, LeaveError>)
      requires Valid()
      modifies this
      ensures Valid() && events == old(events) + [BalancesViewed(user, year)]
      ensures State() == Step(old(State()), BalancesViewed(user, year))
      ensures if user < |old(users)|
              then r.Success? && |r.value| == |old(types)|
                   && forall t :: 0 <= t < |old(types)| ==>
                        r.value[t] == Balance(t, Available(old(State()), Key(user, t, year)))
              else r == Failure(UserNotFound)
    {
      assert forall t :: 0 <= t < |types| ==>
               Balances(allocations, types, user, year, |types|)[t] ==
               Balance(t, Available(State(), Key(user, t, year))) by {
        ValidMeansInv();
        ReportedBalances(State(), user, year);
      }
      if user >= |users| {
        r := Failure(UserNotFound);
      } else {
        var balances := OpenBalances(user, year);
        r := Success(balances);
      }
      Record(BalancesViewed(user, year), old(State()));
    }

    // --- apply_leave ----------------------------------------------------------

    method ApplyLeave(user: nat, p: LeavePayload) returns (r: Result<nat, LeaveError>)
      requires Valid()
      modifies this
      ensures Valid() && events == old(events) + [LeaveRequested(user, p)]
      ensures State() == Step(old(State()), LeaveRequested(user, p))
      ensures r == if Admissible(old(State()), user, p) then Success(|old(requests)|)
                   else Failure(Refusal(old(State()), user, p))
      ensures requests == if Admissible(old(State()), user, p)
                          then old(requests) + [FiledRequest(old(State()), user, p)] else old(requests)
    {
      var saved := State();
      assert match Ledger.ApplyLeave(saved, user, p)
             case Success(d) => Admissible(saved, user, p) && d.requests == saved.requests + [FiledRequest(saved, user, p)]
             case Failure(e) => !Admissible(saved, user, p) && e == Refusal(saved, user, p) by {
        ValidMeansInv();
        AdmissionRule(saved, user, p);
      }
      r := TryApplyLeave(user, p);
      if r.Failure? {
        Rollback(saved);
      }
      Record(LeaveRequested(user, p), saved);
    }

    // The body of the transaction; the caller rolls back when it fails.
    method TryApplyLeave(user: nat, p: LeavePayload) returns (r: Result<nat, LeaveError>)
      modifies this`requests, this`allocations, this`audit
      ensures match Ledger.ApplyLeave(old(State()), user, p)
              case Success(d) => State() == d && r == Success(|old(requests)|)
              case Failure(e) => r == Failure(e)
    {
      if user >= |users| {
        return Failure(UserNotFound);
      }
      if p.end < p.start {
        return Failure(InvalidDateRange);
      }
      if p.typ >= |types| {
        return Failure(LeaveTypeNotFound);
      }
      var overlaps := OverlappingRequests(requests, user, p.start, p.end);
      if overlaps != [] {
        return Failure(OverlappingLeaveRequest);
      }
      var holidayDates := HolidaysOfYear(holidays, Year(p.start));
      var cost := CalculateWorkingDays(p.start, p.end, p.half, holidayDates);
      if cost.None? {
        return Failure(DateOverflow);
      }
      var total := cost.value;
      if total <= 0 {
        return Failure(NoWorkingDaysInRange);
      }
      var balances := OpenBalances(user, Year(p.start));
      var target := FindBalance(balances, p.typ);
      var leaveType := types[p.typ];
      if leaveType.name != Unpaid && target.Some? && total > target.value.remaining {
        return Failure(InsufficientLeaveBalance);
      }
      assert CheckRequest(old(State()), user, p) == Success(total);
      r := FileApproved(old(State()), user, p, total);
    }

    // Look the allocation up and add to its used days, if there is one.
    method ChargeAllocation(k: Key, total: int) returns (ok: bool)
      modifies this`allocations
      ensures match UseDays(old(allocations), k, total)
              case Success(charged) => ok && allocations == charged
              case Failure(_) => !ok
    {
      match FindAllocation(allocations, k) {
        case ManyRows => ok := false;
        case NoRow => ok := true;
        case Row(i) =>
          allocations := allocations[i := allocations[i].(usedDays := allocations[i].usedDays + total)];
          ok := true;
      }
    }

    // The part of apply_leave after its checks: insert the request, charge it when it is
    // approved at once and paid, and log it.
    method FileApproved(ghost before: Db, user: nat, p: LeavePayload, total: int) returns (r: Result<nat, LeaveError>)
      requires p.typ < |types|
      requires State() == before.(allocations := OpenYear(before, user, Year(p.start)))
      modifies this`requests, this`allocations, this`audit
      ensures match FileRequest(before, user, p, total)
              case Success(d) => State() == d && r == Success(|before.requests|)
              case Failure(e) => r == Failure(e)
    {
      var leaveType := types[p.typ];
      var isAutoApproved := false;
      if !leaveType.requiresApproval {
        isAutoApproved := true;
      } else if leaveType.autoApproveThreshold > 0 && total <= leaveType.autoApproveThreshold * FULL_DAY {
        isAutoApproved := true;
      }
      var status := if isAutoApproved then Approved else Pending;
      var id := |requests|;
      requests := requests + [Request(user, p.typ, p.start, p.end, p.half, total, status, isAutoApproved, None)];
      if isAutoApproved && leaveType.name != Unpaid {
        var charged := ChargeAllocation(Key(user, p.typ, Year(p.start)), total);
        if !charged {
          return Failure(MultipleResultsFound);
        }
      }
      audit := audit + [LeaveApplied(user, id, total, status)];
      r := Success(id);
    }

    // --- update_leave_status and cancel_leave ---------------------------------

    method UpdateLeaveStatus(id: nat, status: Status, approver: nat) returns (r: Result<Request, LeaveError>)
      requires Valid()
      modifies this
      ensures Valid() && events == old(events) + [StatusSet(id, status, approver)]
      ensures State() == Step(old(State()), StatusSet(id, status, approver))
      ensures match UpdateStatus(old(State()), id, status, approver)
              case Success(d) => id < |d.requests| && r == Success(d.requests[id])
              case Failure(e) => r == Failure(e)
      ensures r.Success? <==> CanDecide(old(State()), id, status, approver)
      ensures r.Success? ==> r.value == old(requests)[id].(status := status, approver := Some(approver))
    {
      var saved := State();
      assert UpdateStatus(saved, id, status, approver).Success? <==> CanDecide(saved, id, status, approver) by {
        ValidMeansInv();
        DecisionRule(saved, id, status, approver);
      }
      r := TryUpdateLeaveStatus(id, status, approver);
      if r.Failure? {
        Rollback(saved);
      }
      Record(StatusSet(id, status, approver), saved);
    }

    method TryUpdateLeaveStatus(id: nat, status: Status, approver: nat) returns (r: Result<Request, LeaveError>)
      modifies this`requests, this`allocations, this`approvals, this`audit
      ensures match UpdateStatus(old(State()), id, status, approver)
              case Success(d) => State() == d && id < |d.requests| && r == Success(d.requests[id])
              case Failure(e) => r == Failure(e)
    {
      if id >= |requests| {
        return Failure(LeaveRequestNotFound);
      }
      if status != Approved && status != Rejected {
        return Failure(InvalidStatusUpdate);
      }
      var request := requests[id];
      if request.status != Pending {
        return Failure(InvalidLeaveStatus);
      }
      if approver >= |users| {
        return Failure(ForeignKeyViolation);
      }
      requests := requests[id := request.(status := status, approver := Some(approver))];
      if status == Approved && request.typ < |types| && types[request.typ].name != Unpaid {
        var charged := ChargeAllocation(request.DrawsOn(), request.total);
        if !charged {
          return Failure(MultipleResultsFound);
        }
      }
      approvals := approvals + [Approval(id, approver, status)];
      audit := audit + [StatusUpdated(approver, id, status, request.user)];
      r := Success(requests[id]);
    }

    method CancelLeave(id: nat, user: nat, today: Date) returns (r: Option<LeaveError>)
      requires Valid()
      modifies this
      ensures Valid() && events == old(events) + [LeaveWithdrawn(id, user, today)]
      ensures State() == Step(old(State()), LeaveWithdrawn(id, user, today))
      ensures r == match Ledger.CancelLeave(old(State()), id, user, today)
                   case Success(_) => None
                   case Failure(e) => Some(e)
      ensures r == None <==> CanCancel(old(State()), id, user, today)
    {
      var saved := State();
      assert Ledger.CancelLeave(saved, id, user, today).Success? <==> CanCancel(saved, id, user, today) by {
        ValidMeansInv();
        CancellationRule(saved, id, user, today);
      }
      r := TryCancelLeave(id, user, today);
      if r.Some? {
        Rollback(saved);
      }
      Record(LeaveWithdrawn(id, user, today), saved);
    }

    method TryCancelLeave(id: nat, user: nat, today: Date) returns (r: Option<LeaveError>)
      modifies this`requests, this`allocations, this`audit
      ensures match Ledger.CancelLeave(old(State()), id, user, today)
              case Success(d) => State() == d && r == None
              case Failure(e) => r == Some(e)
    {
      if id >= |requests| {
        return Some(LeaveRequestNotFound);
      }
      var request := requests[id];
      if request.user != user {
        return Some(Forbidden);
      }
      if request.status == Cancelled {
        return Some(AlreadyCancelled);
      }
      if request.status == Approved && request.typ < |types| && types[request.typ].name != Unpaid {
        if request.start <= today {
          return Some(CannotCancelStartedLeave);
        }
        match FindAllocation(allocations, request.DrawsOn()) {
          case ManyRows => return Some(MultipleResultsFound);
          case NoRow =>
          case Row(i) =>
            var left := allocations[i].usedDays - request.total;
            allocations := allocations[i := allocations[i].(usedDays := if left < 0 then 0 else left)];
        }
      }
      requests := requests[id := request.(status := Cancelled)];
      audit := audit + [LeaveCancelled(user, id)];
      r := None;
    }

    // --- Holidays, policies, grants -------------------------------------------

    method AddHoliday(date: Date) returns (r: Option<LeaveError>)
      requires Valid()
      modifies this
      ensures Valid() && events == old(events) + [HolidayAdded(date)]
      ensures State() == Step(old(State()), HolidayAdded(date))
      ensures r == if date in old(holidays) then Some(HolidayAlreadyExists) else None
      ensures r == None ==> holidays == old(holidays) + [date] && audit == old(audit) + [HolidayCreated(date)]
    {
      if date in holidays {
        r := Some(HolidayAlreadyExists);
      } else {
        holidays := holidays + [date];
        audit := audit + [HolidayCreated(date)];
        r := None;
      }
      Record(HolidayAdded(date), old(State()));
    }

    method CreateOrUpdateAccrualPolicy(p: Policy) returns (r: Result<nat, LeaveError>)
      requires Valid()
      modifies this
      ensures Valid() && events == old(events) + [PolicySet(p)]
      ensures State() == Step(old(State()), PolicySet(p))
      ensures match ConfigurePolicy(old(State()), p)
              case Failure(e) => r == Failure(e)
              case Success(_) => r == Success(match FindPolicy(old(policies), p.typ, p.designation)
                                              case Row(i) => i
                                              case _ => |old(policies)|)
      ensures r.Success? ==>
                && r.value < |policies| && policies[r.value] == p
                && audit == old(audit) + [PolicyConfigured(r.value, p.frequency, p.rate)]
    {
      if p.rate <= 0 {
        r := Failure(InvalidPayload);
      } else if p.typ >= |types| {
        r := Failure(LeaveTypeNotFound);
      } else {
        match FindPolicy(policies, p.typ, p.designation) {
          case ManyRows =>
            r := Failure(MultipleResultsFound);
          case Row(i) =>
            policies := policies[i := policies[i].(frequency := p.frequency, rate := p.rate,
                                                   maxQuota := p.maxQuota, active := p.active)];
            r := Success(i);
          case NoRow =>
            r := Success(|policies|);
            policies := policies + [p];
        }
        if r.Success? {
          audit := audit + [PolicyConfigured(r.value, p.frequency, p.rate)];
        }
      }
      Record(PolicySet(p), old(State()));
    }

    method GrantManualAllocation(user: nat, typ: nat, year: int, days: int) returns (r: Result<int, LeaveError>)
      requires Valid()
      modifies this
      ensures Valid() && events == old(events) + [DaysGranted(user, typ, year, days)]
      ensures State() == Step(old(State()), DaysGranted(user, typ, year, days))
      ensures r == GrantAnswer(old(State()), Key(user, typ, year), days)
    {
      assert UniqueKeys(allocations) by { ValidMeansInv(); }
      r := AddGrantedDays(user, typ, year, days);
      Record(DaysGranted(user, typ, year, days), old(State()));
    }

    // Nothing has changed yet where it fails, so there is nothing to roll back.
    method AddGrantedDays(user: nat, typ: nat, year: int, days: int) returns (r: Result<int, LeaveError>)
      requires UniqueKeys(allocations)
      modifies this`allocations, this`audit
      ensures State() == Commit(old(State()), GrantDays(old(State()), user, typ, year, days))
      ensures r == GrantAnswer(old(State()), Key(user, typ, year), days)
    {
      var k := Key(user, typ, year);
      if days <= 0 {
        return Failure(InvalidPayload);
      }
      match FindAllocation(allocations, k) {
        case ManyRows =>
          r := Failure(MultipleResultsFound);
        case NoRow =>
          if user >= |users| || typ >= |types| {
            return Failure(ForeignKeyViolation);
          }
          allocations := allocations + [Fresh(k, days)];
          audit := audit + [ManualGrant(user, |allocations| - 1, days, days)];
          r := Success(Fresh(k, days).Remaining());
        case Row(i) =>
          allocations := allocations[i := allocations[i].(allocatedDays := allocations[i].allocatedDays + days)];
          audit := audit + [ManualGrant(user, i, days, allocations[i].allocatedDays)];
          r := Success(allocations[i].Remaining());
      }
    }

    // --- trigger_periodic_accruals --------------------------------------------

    // The body of the inner loop: one user and one policy.
    method AccrueFor(user: nat, pid: nat, today: Date) returns (r: Result<bool, LeaveError>)
      requires user < |users| && pid < |policies|
      modifies this`allocations, this`audit
      ensures match TakeTurn(old(State()), Turn(user, pid), today)
              case Failure(e) => r == Failure(e)
              case Success(d) =>
                State() == d && r == Success(|audit| > |old(audit)|) && |old(audit)| <= |audit| <= |old(audit)| + 1
    {
      var policy := policies[pid];
      if policy.designation.Some? && policy.designation != users[user].designation {
        return Success(false);
      }
      if policy.frequency == Manual {
        return Success(false);
      }
      var k := Key(user, policy.typ, Year(today));
      var row: nat;
      match FindAllocation(allocations, k) {
        case ManyRows =>
          return Failure(MultipleResultsFound);
        case Row(i) =>
          row := i;
        case NoRow =>
          if policy.typ >= |types| {
            return Failure(ForeignKeyViolation);
          }
          row := |allocations|;
          allocations := allocations + [Fresh(k, 0)];
      }
      if ShouldAccrue(policy.frequency, allocations[row].lastAccrual, today) {
        var previous := allocations[row].allocatedDays;
        var days := previous + policy.rate;
        if policy.maxQuota.Some? && policy.maxQuota.value < days {
          days := policy.maxQuota.value;
        }
        allocations := allocations[row := allocations[row].(allocatedDays := days, lastAccrual := Some(today))];
        audit := audit + [PeriodicAccrual(user, row, pid, policy.frequency, policy.rate, previous, days, today)];
        return Success(true);
      }
      r := Success(false);
    }

    method RunLoops(activeUsers: seq<nat>, activePolicies: seq<nat>, today: Date) returns (r: Result<nat, LeaveError>)
      requires forall i :: 0 <= i < |activeUsers| ==> activeUsers[i] < |users|
      requires forall j :: 0 <= j < |activePolicies| ==> activePolicies[j] < |policies|
      modifies this`allocations, this`audit
      ensures match RunAccruals(old(State()), activeUsers, activePolicies, today)
              case Failure(e) => r == Failure(e)
              case Success(d) => State() == d && |old(audit)| <= |audit| && r == Success(|audit| - |old(audit)|)
    {
      if activePolicies == [] {
        NoPoliciesNoTurns(activeUsers);
        return Success(0);
      }
      var totalAccrued := 0;
      for i := 0 to |activeUsers|
        invariant TakeTurns(old(State()), Turns(activeUsers[..i], activePolicies), today) == Success(State())
        invariant |audit| == |old(audit)| + totalAccrued
      {
        FirstTurn(activeUsers, activePolicies, i);
        for j := 0 to |activePolicies|
          invariant TakeTurns(old(State()), TurnsBefore(activeUsers, activePolicies, i, j), today) == Success(State())
          invariant |audit| == |old(audit)| + totalAccrued
        {
          TakeNextTurn(old(State()), activeUsers, activePolicies, i, j, today);
          var accrued := AccrueFor(activeUsers[i], activePolicies[j], today);
          if accrued.Failure? {
            return Failure(accrued.error);
          }
          if accrued.value {
            totalAccrued := totalAccrued + 1;
          }
        }
        NextUser(activeUsers, activePolicies, i, activeUsers[..i + 1]);
      }
      assert activeUsers[..|activeUsers|] == activeUsers;
      r := Success(totalAccrued);
    }

    // activeUsers and activePolicies are what the two queries return, in any order.
    method TriggerPeriodicAccruals(activeUsers: seq<nat>, activePolicies: seq<nat>, today: Date)
      returns (r: Result<nat, LeaveError>)
      requires Valid()
      requires multiset(activeUsers) == multiset(ActiveUsers(users))
      requires multiset(activePolicies) == multiset(ActivePolicies(policies))
      modifies this
      ensures Valid() && events == old(events) + [AccrualRun(activeUsers, activePolicies, today)]
      ensures State() == Step(old(State()), AccrualRun(activeUsers, activePolicies, today))
      ensures |old(audit)| <= |audit| && r == Success(|audit| - |old(audit)|)
    {
      var saved := State();
      QueriedRowsExist(users, policies, activeUsers, activePolicies);
      ValidMeansInv();
      r := RunLoops(activeUsers, activePolicies, today);
      if r.Failure? {
        Rollback(saved);
      }
      RunSucceeds(saved, activeUsers, activePolicies, today);
      Record(AccrualRun(activeUsers, activePolicies, today), saved);
    }
  }

  // The remaining balance after a grant: what remained, if anything was there, and the days.
  ghost function GrantAnswer(db: Db, k: Key, days: int): Result<int, LeaveError> {
    if days <= 0 then Failure(InvalidPayload)
    else if !CanOpen(db, k) then Failure(ForeignKeyViolation)
    else Success(OrFresh(View(db, k), k).Remaining() + days)
  }

  // The dict comprehension of get_user_balances: the later row of a leave type wins.
  function TypeMap(allocations: seq<Allocation>, user: nat, year: int): map<nat, nat> {
    if allocations == [] then map[]
    else
      var last := |allocations| - 1;
      var m := TypeMap(allocations[..last], user, year);
      var k := allocations[last].key;
      if k.user == user && k.year == year then m[k.typ := last] else m
  }

  lemma TypeMapAppend(allocations: seq<Allocation>, a: Allocation, user: nat, year: int)
    ensures TypeMap(allocations + [a], user, year) ==
            if a.key.user == user && a.key.year == year
            then TypeMap(allocations, user, year)[a.key.typ := |allocations|]
            else TypeMap(allocations, user, year)
  {
  }

  // It sends each leave type with a row to the last such row.
  lemma {:induction false} TypeMapFindsLastRow(allocations: seq<Allocation>, user: nat, year: int, t: nat)
    ensures t in TypeMap(allocations, user, year) <==> HasKey(allocations, Key(user, t, year))
    ensures t in TypeMap(allocations, user, year) ==>
              TypeMap(allocations, user, year)[t] == LastRow(allocations, Key(user, t, year))
  {
    if allocations != [] {
      var last := |allocations| - 1;
      TypeMapFindsLastRow(allocations[..last], user, year, t);
      assert allocations == allocations[..last] + [allocations[last]];
      LastRowAppend(allocations[..last], allocations[last], Key(user, t, year));
    }
  }

  // The turns taken when the loops stand at user i and policy j.
  ghost function TurnsBefore(users: seq<nat>, policies: seq<nat>, i: nat, j: nat): seq<Turn>
    requires i < |users| && j <= |policies|
  {
    Turns(users[..i], policies) + Turns1(users[i], policies[..j])
  }

  lemma {:induction false} NoPoliciesNoTurns(users: seq<nat>)
    ensures Turns(users, []) == []
  {
    if users != [] {
      NoPoliciesNoTurns(users[..|users| - 1]);
    }
  }

  // A permutation of a query result holds only its rows.
  lemma SameRows(a: seq<nat>, b: seq<nat>)
    requires multiset(a) == multiset(b)
    ensures forall i :: 0 <= i < |a| ==> a[i] in b
  {
    forall i | 0 <= i < |a|
      ensures a[i] in b
    {
      assert a[i] in multiset(a);
    }
  }

  lemma QueriedRowsExist(users: seq<User>, policies: seq<Policy>, us: seq<nat>, ps: seq<nat>)
    requires multiset(us) == multiset(ActiveUsers(users)) && multiset(ps) == multiset(ActivePolicies(policies))
    ensures forall i :: 0 <= i < |us| ==> us[i] < |users|
    ensures forall j :: 0 <= j < |ps| ==> ps[j] < |policies|
  {
    SameRows(us, ActiveUsers(users));
    SameRows(ps, ActivePolicies(policies));
  }

  lemma RunSucceeds(db: Db, users: seq<nat>, policies: seq<nat>, today: Date)
    requires Inv(db)
    requires forall i :: 0 <= i < |users| ==> users[i] < |db.users|
    requires forall j :: 0 <= j < |policies| ==> policies[j] < |db.policies|
    ensures RunAccruals(db, users, policies, today).Success?
  {
    var ts := Turns(users, policies);
    forall t | t in ts
      ensures t.user < |db.users| && t.policy < |db.policies|
    {
      TurnsAreAllPairs(users, policies, t);
    }
    TurnsSucceed(db, ts, today);
  }

  lemma FirstTurn(users: seq<nat>, policies: seq<nat>, i: nat)
    requires i < |users|
    ensures TurnsBefore(users, policies, i, 0) == Turns(users[..i], policies)
  {
  }

  lemma NextTurn(users: seq<nat>, policies: seq<nat>, i: nat, j: nat)
    requires i < |users| && j < |policies|
    ensures var ts := TurnsBefore(users, policies, i, j + 1);
            && ts == TurnsBefore(users, policies, i, j) + [Turn(users[i], policies[j])]
            && ts[..|ts| - 1] == TurnsBefore(users, policies, i, j)
            && ts <= Turns(users, policies)
  {
    assert policies[..j + 1][..j] == policies[..j];
    Turns1Prefix(users[i], policies, j + 1);
    assert TurnsBefore(users, policies, i, j + 1) <= TurnsBefore(users, policies, i, |policies|) by {
      assert policies[..|policies|] == policies;
    }
    NextUser(users, policies, i, users[..i + 1]);
    TurnsPrefix(users, policies, i + 1);
  }

  lemma TakeNextTurn(db: Db, users: seq<nat>, policies: seq<nat>, i: nat, j: nat, today: Date)
    requires i < |users| && j < |policies|
    ensures var before := TakeTurns(db, TurnsBefore(users, policies, i, j), today);
            var after := TakeTurns(db, TurnsBefore(users, policies, i, j + 1), today);
            && (before.Success? ==> after == TakeTurn(before.value, Turn(users[i], policies[j]), today))
            && (after.Failure? ==> RunAccruals(db, users, policies, today) == after)
  {
    NextTurn(users, policies, i, j);
    if TakeTurns(db, TurnsBefore(users, policies, i, j + 1), today).Failure? {
      FailedTurnFailsRun(db, TurnsBefore(users, policies, i, j + 1), Turns(users, policies), today);
    }
  }

  lemma NextUser(users: seq<nat>, policies: seq<nat>, i: nat, next: seq<nat>)
    requires i < |users| && next == users[..i + 1]
    ensures Turns(next, policies) == TurnsBefore(users, policies, i, |policies|)
  {
    assert next[..|next| - 1] == users[..i];
    assert policies[..|policies|] == policies;
  }

  lemma {:induction false} Turns1Prefix(user: nat, policies: seq<nat>, j: nat)
    requires j <= |policies|
    ensures Turns1(user, policies[..j]) <= Turns1(user, policies)
    decreases |policies|
  {
    var last := |policies| - 1;
    if j <= last {
      Turns1Prefix(user, policies[..last], j);
      assert policies[..last][..j] == policies[..j];
    } else {
      assert policies[..j] == policies;
    }
  }

  lemma {:induction false} TurnsPrefix(users: seq<nat>, policies: seq<nat>, i: nat)
    requires i <= |users|
    ensures Turns(users[..i], policies) <= Turns(users, policies)
    decreases |users|
  {
    var last := |users| - 1;
    if i <= last {
      TurnsPrefix(users[..last], policies, i);
      assert users[..last][..i] == users[..i];
    } else {
      assert users[..i] == users;
    }
  }

  lemma {:induction false} FailedTurnFailsRun(db: Db, ts: seq<Turn>, all: seq<Turn>, today: Date)
    requires ts <= all && TakeTurns(db, ts, today).Failure?
    ensures TakeTurns(db, all, today) == TakeTurns(db, ts, today)
    decreases |all|
  {
    if |ts| < |all| {
      FailedTurnFailsRun(db, ts, all[..|all| - 1], today);
    } else {
      assert all == ts;
    }
  }
}
