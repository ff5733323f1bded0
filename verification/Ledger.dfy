/**
 What each operation of LeaveService does to the tables (app/modules/leaves/service.py).
 An operation yields the new tables or an error; on an error the session is rolled back
 (app/db/session.py), so a step of the system either commits everything or changes nothing.
 */
module Ledger {
  import opened Wrappers
  import opened Calendar
  import opened WorkingDays
  import opened Records
  import opened Repository

  type Outcome = Result<Db, LeaveError>

  // --- Balances ---------------------------------------------------------------

  function Fresh(k: Key, days: int): Allocation {
    Allocation(k, days, 0, 0, None)
  }

  datatype Balance = Balance(typ: nat, remaining: int)

  // The allocations with a row for k, opened with the given days when there is none.
  function OpenAt(allocations: seq<Allocation>, k: Key, days: int): seq<Allocation> {
    if HasKey(allocations, k) then allocations else allocations + [Fresh(k, days)]
  }

  // The allocations after get_user_balances has met its first n leave types: a missing one
  // is opened with the default quota of its type.
  function OpenTypes(allocations: seq<Allocation>, types: seq<LeaveType>, user: nat, year: int, n: nat): seq<Allocation>
    requires n <= |types|
  {
    if n == 0 then allocations
    else OpenAt(OpenTypes(allocations, types, user, year, n - 1), Key(user, n - 1, year), types[n - 1].defaultQuota)
  }

  function OpenYear(db: Db, user: nat, year: int): seq<Allocation> {
    OpenTypes(db.allocations, db.types, user, year, |db.types|)
  }

  // The balance of the last row for k, as the comprehension of get_user_balances picks it.
  function BalanceAt(allocations: seq<Allocation>, k: Key): Balance
    requires HasKey(allocations, k)
  {
    Balance(k.typ, allocations[LastRow(allocations, k)].Remaining())
  }

  lemma OpenAtOpens(allocations: seq<Allocation>, k: Key, days: int)
    ensures var grown := OpenAt(allocations, k, days);
            allocations <= grown && HasKey(grown, k)
            && (grown != allocations ==> grown == allocations + [Fresh(k, days)] && !HasKey(allocations, k))
  {
    if !HasKey(allocations, k) {
      assert OpenAt(allocations, k, days)[|allocations|].key == k;
    }
  }

  // What get_user_balances reports for the first n leave types.
  function Balances(allocations: seq<Allocation>, types: seq<LeaveType>, user: nat, year: int, n: nat): (bs: seq<Balance>)
    requires n <= |types|
    ensures |bs| == n && forall t :: 0 <= t < n ==> bs[t].typ == t
  {
    if n == 0 then []
    else
      OpenAtOpens(OpenTypes(allocations, types, user, year, n - 1), Key(user, n - 1, year), types[n - 1].defaultQuota);
      Balances(allocations, types, user, year, n - 1)
      + [BalanceAt(OpenTypes(allocations, types, user, year, n), Key(user, n - 1, year))]
  }

  function FindBalance(balances: seq<Balance>, typ: nat): Option<Balance> {
    if balances == [] then None
    else if balances[0].typ == typ then Some(balances[0])
    else FindBalance(balances[1..], typ)
  }

  function ViewBalances(db: Db, user: nat, year: int): Outcome {
    if user >= |db.users| then Failure(UserNotFound)
    else Success(db.(allocations := OpenYear(db, user, year)))
  }

  // --- Requests ---------------------------------------------------------------

  datatype LeavePayload = LeavePayload(typ: nat, start: Date, end: Date, half: HalfDay)

  // The checks of apply_leave in their order; the value is the cost of the request.
  function CheckRequest(db: Db, user: nat, p: LeavePayload): Result<int, LeaveError> {
    if user >= |db.users| then Failure(UserNotFound)
    else if p.end < p.start then Failure(InvalidDateRange)
    else if p.typ >= |db.types| then Failure(LeaveTypeNotFound)
    else if OverlappingRequests(db.requests, user, p.start, p.end) != [] then Failure(OverlappingLeaveRequest)
    else
      match Cost(p.start, p.end, p.half, HolidaysOfYear(db.holidays, Year(p.start)))
      case None => Failure(DateOverflow)
      case Some(total) =>
        if total <= 0 then Failure(NoWorkingDaysInRange)
        else
          var balances := Balances(db.allocations, db.types, user, Year(p.start), |db.types|);
          var target := FindBalance(balances, p.typ);
          if db.IsPaid(p.typ) && target.Some? && total > target.value.remaining
          then Failure(InsufficientLeaveBalance)
          else Success(total)
  }

  predicate AutoApproves(t: LeaveType, total: int) {
    || !t.requiresApproval
    || (t.autoApproveThreshold > 0 && total <= t.autoApproveThreshold * FULL_DAY)
  }

  function UseDays(allocations: seq<Allocation>, k: Key, total: int): Result<seq<Allocation>, LeaveError> {
    match FindAllocation(allocations, k)
    case NoRow => Success(allocations)
    case ManyRows => Failure(MultipleResultsFound)
    case Row(i) => Success(allocations[i := allocations[i].(usedDays := allocations[i].usedDays + total)])
  }

  function RestoreDays(allocations: seq<Allocation>, k: Key, total: int): Result<seq<Allocation>, LeaveError> {
    match FindAllocation(allocations, k)
    case NoRow => Success(allocations)
    case ManyRows => Failure(MultipleResultsFound)
    case Row(i) => Success(allocations[i := allocations[i].(usedDays := Max(0, allocations[i].usedDays - total))])
  }

  function NewRequest(db: Db, user: nat, p: LeavePayload, total: int): Request
    requires p.typ < |db.types|
  {
    var auto := AutoApproves(db.types[p.typ], total);
    Request(user, p.typ, p.start, p.end, p.half, total, if auto then Approved else Pending, auto, None)
  }

  // apply_leave once the checks have passed
  function FileRequest(db: Db, user: nat, p: LeavePayload, total: int): Outcome
    requires p.typ < |db.types|
  {
    var r := NewRequest(db, user, p, total);
    var grown := OpenYear(db, user, Year(p.start));
    match if r.autoApproved && db.IsPaid(p.typ) then UseDays(grown, r.DrawsOn(), total) else Success(grown)
    case Failure(e) => Failure(e)
    case Success(charged) =>
      Success(db.(requests := db.requests + [r], allocations := charged,
                  audit := db.audit + [LeaveApplied(user, |db.requests|, total, r.status)]))
  }

  function ApplyLeave(db: Db, user: nat, p: LeavePayload): Outcome {
    match CheckRequest(db, user, p)
    case Failure(e) => Failure(e)
    case Success(total) => FileRequest(db, user, p, total)
  }

  function UpdateStatus(db: Db, id: nat, status: Status, approver: nat): Outcome {
    if id >= |db.requests| then Failure(LeaveRequestNotFound)
    else if status !in {Approved, Rejected} then Failure(InvalidStatusUpdate)
    else if db.requests[id].status != Pending then Failure(InvalidLeaveStatus)
    else if approver >= |db.users| then Failure(ForeignKeyViolation)
    else
      var r := db.requests[id].(status := status, approver := Some(approver));
      match if status == Approved && db.IsPaid(r.typ) then UseDays(db.allocations, r.DrawsOn(), r.total)
            else Success(db.allocations)
      case Failure(e) => Failure(e)
      case Success(charged) =>
        Success(db.(requests := db.requests[id := r], allocations := charged,
                    approvals := db.approvals + [Approval(id, approver, status)],
                    audit := db.audit + [StatusUpdated(approver, id, status, r.user)]))
  }

  function CancelLeave(db: Db, id: nat, user: nat, today: Date): Outcome {
    if id >= |db.requests| then Failure(LeaveRequestNotFound)
    else if db.requests[id].user != user then Failure(Forbidden)
    else if db.requests[id].status == Cancelled then Failure(AlreadyCancelled)
    else
      var r := db.requests[id];
      var restores := r.status == Approved && db.IsPaid(r.typ);
      if restores && r.start <= today then Failure(CannotCancelStartedLeave)
      else
        match if restores then RestoreDays(db.allocations, r.DrawsOn(), r.total) else Success(db.allocations)
        case Failure(e) => Failure(e)
        case Success(restored) =>
          Success(db.(requests := db.requests[id := r.(status := Cancelled)], allocations := restored,
                      audit := db.audit + [LeaveCancelled(user, id)]))
  }

  // --- Grants, policies, holidays, users --------------------------------------

  function GrantRow(db: Db, i: nat, user: nat, days: int): Db
    requires i < |db.allocations|
  {
    var a := db.allocations[i];
    var total := a.allocatedDays + days;
    db.(allocations := db.allocations[i := a.(allocatedDays := total)],
        audit := db.audit + [ManualGrant(user, i, days, total)])
  }

  function GrantFirst(db: Db, k: Key, days: int): Db {
    db.(allocations := db.allocations + [Fresh(k, days)],
        audit := db.audit + [ManualGrant(k.user, |db.allocations|, days, days)])
  }

  function GrantDays(db: Db, user: nat, typ: nat, year: int, days: int): Outcome {
    var k := Key(user, typ, year);
    if days <= 0 then Failure(InvalidPayload)
    else
      match FindAllocation(db.allocations, k)
      case ManyRows => Failure(MultipleResultsFound)
      case NoRow =>
        if user >= |db.users| || typ >= |db.types| then Failure(ForeignKeyViolation)
        else Success(GrantFirst(db, k, days))
      case Row(i) => Success(GrantRow(db, i, user, days))
  }

  function ConfigurePolicy(db: Db, p: Policy): Outcome {
    if p.rate <= 0 then Failure(InvalidPayload)
    else if p.typ >= |db.types| then Failure(LeaveTypeNotFound)
    else
      match FindPolicy(db.policies, p.typ, p.designation)
      case ManyRows => Failure(MultipleResultsFound)
      case Row(i) =>
        Success(db.(policies := db.policies[i := db.policies[i].(frequency := p.frequency, rate := p.rate,
                                                                  maxQuota := p.maxQuota, active := p.active)],
                    audit := db.audit + [PolicyConfigured(i, p.frequency, p.rate)]))
      case NoRow =>
        Success(db.(policies := db.policies + [p],
                    audit := db.audit + [PolicyConfigured(|db.policies|, p.frequency, p.rate)]))
  }

  function CreateHoliday(db: Db, date: Date): Outcome {
    if date in db.holidays then Failure(HolidayAlreadyExists)
    else Success(db.(holidays := db.holidays + [date], audit := db.audit + [HolidayCreated(date)]))
  }

  // A user is created or its designation and activity are edited (app/modules/users/service.py).
  function PutUser(db: Db, id: nat, u: User): Outcome {
    if id < |db.users| then Success(db.(users := db.users[id := u]))
    else if id == |db.users| then Success(db.(users := db.users + [u]))
    else Failure(UserNotFound)
  }

  // --- Accruals ---------------------------------------------------------------

  predicate ShouldAccrue(f: Frequency, last: Option<Date>, today: Date) {
    match last
    case None => true
    case Some(l) =>
      match f
      case Monthly => Year(today) > Year(l) || Month(today) > Month(l)
      case Quarterly => Year(today) > Year(l) || (Month(today) - 1) / 3 > (Month(l) - 1) / 3
      case HalfYearly =>
        var currentHalf := if Month(today) <= 6 then 1 else 2;
        var lastHalf := if Month(l) <= 6 then 1 else 2;
        Year(today) > Year(l) || currentHalf > lastHalf
      case Yearly => Year(today) > Year(l)
      case Manual => false
  }

  function Accrued(days: int, p: Policy): int {
    match p.maxQuota
    case None => days + p.rate
    case Some(q) => Min(q, days + p.rate)
  }

  predicate Targets(p: Policy, designation: Option<nat>) {
    (p.designation == None || p.designation == designation) && p.frequency != Manual
  }

  function AccrueRow(db: Db, i: nat, user: nat, pid: nat, p: Policy, today: Date): Db
    requires i < |db.allocations|
  {
    var a := db.allocations[i];
    if ShouldAccrue(p.frequency, a.lastAccrual, today) then
      var days := Accrued(a.allocatedDays, p);
      db.(allocations := db.allocations[i := a.(allocatedDays := days, lastAccrual := Some(today))],
          audit := db.audit + [PeriodicAccrual(user, i, pid, p.frequency, p.rate, a.allocatedDays, days, today)])
    else db
  }

  // One turn of the inner loop of trigger_periodic_accruals: one user and one policy, both
  // as the run read them, which may be older than the tables.
  function AccrueStep(db: Db, user: nat, designation: Option<nat>, pid: nat, p: Policy, today: Date): Outcome {
    if !Targets(p, designation) then Success(db)
    else
      var k := Key(user, p.typ, Year(today));
      match FindAllocation(db.allocations, k)
      case ManyRows => Failure(MultipleResultsFound)
      case Row(i) => Success(AccrueRow(db, i, user, pid, p, today))
      case NoRow =>
        if user >= |db.users| || p.typ >= |db.types| then Failure(ForeignKeyViolation)
        else Success(AccrueRow(db.(allocations := OpenAt(db.allocations, k, 0)), |db.allocations|,
                               user, pid, p, today))
  }

  // A user and a policy, by id.
  datatype Turn = Turn(user: nat, policy: nat)

  function Turns1(user: nat, policies: seq<nat>): seq<Turn> {
    if policies == [] then []
    else Turns1(user, policies[..|policies| - 1]) + [Turn(user, policies[|policies| - 1])]
  }

  // The order in which the two nested loops meet users and policies.
  function Turns(users: seq<nat>, policies: seq<nat>): seq<Turn> {
    if users == [] then []
    else Turns(users[..|users| - 1], policies) + Turns1(users[|users| - 1], policies)
  }

  function TakeTurn(db: Db, t: Turn, today: Date): Outcome {
    if t.user < |db.users| && t.policy < |db.policies| then
      AccrueStep(db, t.user, db.users[t.user].designation, t.policy, db.policies[t.policy], today)
    else Failure(UserNotFound)
  }

  function TakeTurns(db: Db, ts: seq<Turn>, today: Date): Outcome {
    if ts == [] then Success(db)
    else
      match TakeTurns(db, ts[..|ts| - 1], today)
      case Failure(e) => Failure(e)
      case Success(d) => TakeTurn(d, ts[|ts| - 1], today)
  }

  // trigger_periodic_accruals with the users and policies in the order the queries gave.
  function RunAccruals(db: Db, users: seq<nat>, policies: seq<nat>, today: Date): Outcome {
    TakeTurns(db, Turns(users, policies), today)
  }

  // --- The system -------------------------------------------------------------

  datatype Event =
    | BalancesViewed(user: nat, year: int)
    | LeaveRequested(user: nat, payload: LeavePayload)
    | StatusSet(request: nat, status: Status, approver: nat)
    | LeaveWithdrawn(request: nat, user: nat, today: Date)
    | DaysGranted(user: nat, typ: nat, year: int, days: int)
    | PolicySet(policy: Policy)
    | HolidayAdded(date: Date)
    | UserPut(id: nat, record: User)
    | AccrualTurn(user: nat, designation: Option<nat>, pid: nat, policy: Policy, today: Date)
    | AccrualRun(users: seq<nat>, policies: seq<nat>, today: Date)

  function Perform(db: Db, ev: Event): Outcome {
    match ev
    case BalancesViewed(user, year) => ViewBalances(db, user, year)
    case LeaveRequested(user, payload) => ApplyLeave(db, user, payload)
    case StatusSet(request, status, approver) => UpdateStatus(db, request, status, approver)
    case LeaveWithdrawn(request, user, today) => CancelLeave(db, request, user, today)
    case DaysGranted(user, typ, year, days) => GrantDays(db, user, typ, year, days)
    case PolicySet(policy) => ConfigurePolicy(db, policy)
    case HolidayAdded(date) => CreateHoliday(db, date)
    case UserPut(id, record) => PutUser(db, id, record)
    case AccrualTurn(user, designation, pid, policy, today) => AccrueStep(db, user, designation, pid, policy, today)
    case AccrualRun(users, policies, today) => RunAccruals(db, users, policies, today)
  }

  // Commit or roll back.
  function Commit(db: Db, o: Outcome): Db {
    match o
    case Success(d) => d
    case Failure(_) => db
  }

  function Step(db: Db, ev: Event): Db {
    Commit(db, Perform(db, ev))
  }

  function Run(db: Db, evs: seq<Event>): Db {
    if evs == [] then db else Step(Run(db, evs[..|evs| - 1]), evs[|evs| - 1])
  }
}
