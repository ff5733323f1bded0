/**
 The rows of the leave tables (app/models/leave.py, app/models/holiday.py, app/models/audit.py).
 A table is a sequence of rows that only grows, and the id of a row is its position.
 Day counts are in hundredths.
 */
module Records {
  import opened Wrappers
  import opened Calendar
  import opened WorkingDays

  datatype LeaveName = Casual | Sick | Earned | Unpaid

  datatype Status = Pending | Approved | Rejected | Cancelled

  datatype Frequency = Monthly | Quarterly | HalfYearly | Yearly | Manual

  datatype User = User(designation: Option<nat>, active: bool)

  datatype LeaveType = LeaveType(
    name: LeaveName, defaultQuota: int, requiresApproval: bool, autoApproveThreshold: int)

  datatype Policy = Policy(
    typ: nat, designation: Option<nat>, frequency: Frequency, rate: int, maxQuota: Option<int>,
    active: bool)

  // The columns that select an allocation.
  datatype Key = Key(user: nat, typ: nat, year: int)

  datatype Allocation = Allocation(
    key: Key, allocatedDays: int, usedDays: int, compOff: int, lastAccrual: Option<Date>)
  {
    function Remaining(): (days: int)
      ensures days + usedDays == allocatedDays + compOff
    {
      allocatedDays + compOff - usedDays
    }
  }

  datatype Request = Request(
    user: nat, typ: nat, start: Date, end: Date, half: HalfDay, total: int, status: Status,
    autoApproved: bool, approver: Option<nat>)
  {
    // The allocation a request draws on is that of the year it starts in.
    function DrawsOn(): Key { Key(user, typ, Year(start)) }

    predicate Live() { status == Pending || status == Approved }
  }

  datatype Approval = Approval(request: nat, approver: nat, status: Status)

  datatype AuditEntry =
    | LeaveApplied(user: nat, request: nat, total: int, status: Status)
    | StatusUpdated(user: nat, request: nat, status: Status, target: nat)
    | LeaveCancelled(user: nat, request: nat)
    | HolidayCreated(date: Date)
    | PolicyConfigured(policy: nat, frequency: Frequency, rate: int)
    | ManualGrant(user: nat, allocation: nat, granted: int, newAllocated: int)
    | PeriodicAccrual(user: nat, allocation: nat, policy: nat, frequency: Frequency, rate: int,
                      previous: int, newAllocated: int, date: Date)
  {
    // The entry records a change of `allocated_days` of allocation i.
    predicate Changes(i: nat) {
      (ManualGrant? || PeriodicAccrual?) && allocation == i
    }
  }

  datatype Db = Db(
    users: seq<User>, types: seq<LeaveType>, holidays: seq<Date>, requests: seq<Request>,
    allocations: seq<Allocation>, policies: seq<Policy>, approvals: seq<Approval>,
    audit: seq<AuditEntry>)
  {
    predicate IsPaid(typ: nat) {
      typ < |types| && types[typ].name != Unpaid
    }
  }

  datatype LeaveError =
    | UserNotFound | InvalidDateRange | LeaveTypeNotFound | OverlappingLeaveRequest
    | DateOverflow | NoWorkingDaysInRange | InsufficientLeaveBalance | LeaveRequestNotFound
    | InvalidStatusUpdate | InvalidLeaveStatus | Forbidden | AlreadyCancelled
    | CannotCancelStartedLeave | HolidayAlreadyExists | InvalidPayload
    | MultipleResultsFound | ForeignKeyViolation
}
