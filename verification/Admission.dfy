/** Which leave requests are accepted, and what that means for balances. */
module Admission {
  import opened Wrappers
  import opened Calendar
  import opened WorkingDays
  import opened Records
  import opened Repository
  import opened Ledger
  import opened LedgerInvariant
  import opened LedgerSteps

  // --- What get_user_balances reports -----------------------------------------

  ghost predicate ReportsRow(b: Balance, allocations: seq<Allocation>, k: Key) {
    exists i :: 0 <= i < |allocations| && allocations[i].key == k && b == Balance(k.typ, allocations[i].Remaining())
  }

  ghost predicate ReportsRows(bs: seq<Balance>, allocations: seq<Allocation>, user: nat, year: int) {
    forall t :: 0 <= t < |bs| ==> ReportsRow(bs[t], allocations, Key(user, t, year))
  }

  lemma KeptReports(bs: seq<Balance>, known: seq<Allocation>, now: seq<Allocation>, user: nat, year: int)
    requires ReportsRows(bs, known, user, year) && known <= now
    ensures ReportsRows(bs, now, user, year)
  {
  }

  lemma {:induction false} BalancesReportRows(allocations: seq<Allocation>, types: seq<LeaveType>,
                                              user: nat, year: int, n: nat)
    requires n <= |types|
    ensures ReportsRows(Balances(allocations, types, user, year, n),
                        OpenTypes(allocations, types, user, year, n), user, year)
  {
    if n > 0 {
      BalancesReportRows(allocations, types, user, year, n - 1);
      var known := OpenTypes(allocations, types, user, year, n - 1);
      var now := OpenTypes(allocations, types, user, year, n);
      OpenAtOpens(known, Key(user, n - 1, year), types[n - 1].defaultQuota);
      KeptReports(Balances(allocations, types, user, year, n - 1), known, now, user, year);
      LastReport(now, Key(user, n - 1, year));
    }
  }

  lemma LastReport(allocations: seq<Allocation>, k: Key)
    requires HasKey(allocations, k)
    ensures ReportsRow(BalanceAt(allocations, k), allocations, k)
  {
  }

  lemma {:induction false} FindsBalance(bs: seq<Balance>, offset: nat, t: nat)
    requires t < |bs| && forall j :: 0 <= j < |bs| ==> bs[j].typ == j + offset
    ensures FindBalance(bs, t + offset) == Some(bs[t])
  {
    if t > 0 {
      assert bs[0].typ != t + offset;
      FindsBalance(bs[1..], offset + 1, t - 1);
    }
  }

  // The balance lookup of apply_leave never misses, and it reads the request's own row.
  lemma TargetBalanceFound(db: Db, user: nat, typ: nat, year: int)
    requires typ < |db.types|
    ensures var b := FindBalance(Balances(db.allocations, db.types, user, year, |db.types|), typ);
            b.Some? && ReportsRow(b.value, OpenYear(db, user, year), Key(user, typ, year))
  {
    var bs := Balances(db.allocations, db.types, user, year, |db.types|);
    BalancesReportRows(db.allocations, db.types, user, year, |db.types|);
    FindsBalance(bs, 0, typ);
  }

  // --- The rule of admission --------------------------------------------------

  // The days a user may still take: what was allocated (or will be, by default) less the
  // approved requests of that leave type and year.
  ghost function Available(db: Db, k: Key): int
    requires k.typ < |db.types|
  {
    match FindAllocation(db.allocations, k)
    case Row(i) => db.allocations[i].allocatedDays - ExpectedUse(db.types, db.requests, k)
    case _ => db.types[k.typ].defaultQuota
  }

  lemma RowIsAvailable(db: Db, i: nat)
    requires UniqueKeys(db.allocations) && UsedDays(db.types, db.requests, db.allocations)
    requires i < |db.allocations| && db.allocations[i].key.typ < |db.types|
    ensures db.allocations[i].Remaining() == Available(db, db.allocations[i].key)
  {
  }

  lemma ReportIsAvailable(db: Db, b: Balance, user: nat, typ: nat, year: int)
    requires UniqueKeys(db.allocations) && UsedDays(db.types, db.requests, db.allocations)
    requires typ < |db.types|
    requires ReportsRow(b, OpenYear(db, user, year), Key(user, typ, year))
    ensures b.remaining == Available(db, Key(user, typ, year))
  {
    var k := Key(user, typ, year);
    var grown := OpenYear(db, user, year);
    var i: nat :| i < |grown| && grown[i].key == k && b == Balance(k.typ, grown[i].Remaining());
    OpenTypesOpens(db.allocations, db.types, user, year, |db.types|);
    if i < |db.allocations| {
      RowIsAvailable(db, i);
    } else {
      assert OpenedRow(grown[i], db.types, user, year, |db.types|);
    }
  }

  ghost predicate SharesADate(r: Request, start: Date, end: Date) {
    exists d: Date :: Covers(r.start, r.end, d) && Covers(start, end, d)
  }

  ghost predicate Booked(requests: seq<Request>, user: nat, start: Date, end: Date) {
    exists i :: 0 <= i < |requests| && requests[i].user == user && requests[i].Live()
                && SharesADate(requests[i], start, end)
  }

  lemma ConflictsAreBookings(requests: seq<Request>, user: nat, start: Date, end: Date)
    requires RequestStates(requests) && start <= end
    ensures OverlappingRequests(requests, user, start, end) != [] <==> Booked(requests, user, start, end)
  {
    var sel := OverlappingRequests(requests, user, start, end);
    if sel != [] {
      var i := sel[0];
      assert i in sel;
      assert RequestState(requests[i]);
      OverlapClauseIsIntersection(requests[i], start, end);
      assert SharesADate(requests[i], start, end);
    }
    if Booked(requests, user, start, end) {
      var i: nat :| i < |requests| && requests[i].user == user && requests[i].Live()
                    && SharesADate(requests[i], start, end);
      assert RequestState(requests[i]);
      OverlapClauseIsIntersection(requests[i], start, end);
      assert InConflict(requests[i], user, start, end);
      assert i in sel;
    }
  }

  // The dates an application is charged for: the weekdays of its period, less the holidays
  // that are stored for the year it starts in.
  ghost function DatesCharged(db: Db, p: LeavePayload): set<int> {
    set d: Date | p.start <= d <= p.end && Weekday(d) < 5 && !(d in db.holidays && Year(d) == Year(p.start))
  }

  // A day for each of them, and half a day less for a half-day form.
  ghost function DaysCharged(db: Db, p: LeavePayload): int {
    100 * |DatesCharged(db, p)| - if p.half == WholeDays then 0 else 50
  }

  // The leave type needs no approval, or its threshold, in days, covers those dates.
  ghost predicate ApprovedAtOnce(t: LeaveType, dates: set<int>, half: HalfDay) {
    || !t.requiresApproval
    || (t.autoApproveThreshold > 0
        && if half == WholeDays then |dates| <= t.autoApproveThreshold
           else 2 * |dates| - 1 <= 2 * t.autoApproveThreshold)
  }

  lemma ThresholdInDates(t: LeaveType, db: Db, p: LeavePayload)
    ensures AutoApproves(t, DaysCharged(db, p)) <==> ApprovedAtOnce(t, DatesCharged(db, p), p.half)
  {
  }

  lemma DatesAreWorkingDates(db: Db, p: LeavePayload)
    ensures WorkingDates(p.start, p.end + 1, HolidaysOfYear(db.holidays, Year(p.start))) == DatesCharged(db, p)
  {
    var holidays := HolidaysOfYear(db.holidays, Year(p.start));
    forall d: int
      ensures d in WorkingDates(p.start, p.end + 1, holidays) <==> d in DatesCharged(db, p)
    {
      assert p.start <= d <= p.end ==> (d in holidays <==> d in db.holidays && Year(d) == Year(p.start));
    }
  }

  lemma CostIsDaysCharged(db: Db, p: LeavePayload)
    requires p.start <= p.end < MAX_ORDINAL
    ensures Cost(p.start, p.end, p.half, HolidaysOfYear(db.holidays, Year(p.start))) ==
            Some(if DatesCharged(db, p) == {} then 0 else DaysCharged(db, p))
  {
    DatesAreWorkingDates(db, p);
    CountIsCardinality(p.start, p.end + 1, HolidaysOfYear(db.holidays, Year(p.start)));
  }

  // Accepted exactly when: the period is well-formed, the user has no live request sharing a
  // date with it, it holds a date to charge, and a paid leave fits the days still available.
  ghost predicate Admissible(db: Db, user: nat, p: LeavePayload) {
    && user < |db.users| && p.typ < |db.types|
    && p.start <= p.end < MAX_ORDINAL
    && !Booked(db.requests, user, p.start, p.end)
    && DatesCharged(db, p) != {}
    && (db.IsPaid(p.typ) ==> DaysCharged(db, p) <= Available(db, Key(user, p.typ, Year(p.start))))
  }

  // Why an application that is not admissible is refused.
  ghost function Refusal(db: Db, user: nat, p: LeavePayload): LeaveError {
    if user >= |db.users| then UserNotFound
    else if p.end < p.start then InvalidDateRange
    else if p.typ >= |db.types| then LeaveTypeNotFound
    else if Booked(db.requests, user, p.start, p.end) then OverlappingLeaveRequest
    else if p.end == MAX_ORDINAL then DateOverflow
    else if DatesCharged(db, p) == {} then NoWorkingDaysInRange
    else InsufficientLeaveBalance
  }

  // The balance check compares the cost with the days available.
  lemma TargetIsAvailable(db: Db, user: nat, typ: nat, year: int)
    requires Inv(db) && typ < |db.types|
    ensures FindBalance(Balances(db.allocations, db.types, user, year, |db.types|), typ)
            == Some(Balance(typ, Available(db, Key(user, typ, year))))
  {
    TargetBalanceFound(db, user, typ, year);
    var b := FindBalance(Balances(db.allocations, db.types, user, year, |db.types|), typ).value;
    ReportIsAvailable(db, b, user, typ, year);
  }

  // The checks of apply_leave, given what the overlap query and the balance look-up mean.
  lemma CheckMeansAdmission(db: Db, user: nat, p: LeavePayload)
    requires user < |db.users| && p.typ < |db.types| && p.start <= p.end
    requires OverlappingRequests(db.requests, user, p.start, p.end) != [] <==> Booked(db.requests, user, p.start, p.end)
    requires FindBalance(Balances(db.allocations, db.types, user, Year(p.start), |db.types|), p.typ)
             == Some(Balance(p.typ, Available(db, Key(user, p.typ, Year(p.start)))))
    ensures CheckRequest(db, user, p) ==
            if Admissible(db, user, p) then Success(DaysCharged(db, p)) else Failure(Refusal(db, user, p))
  {
    if p.end < MAX_ORDINAL {
      CostIsDaysCharged(db, p);
    } else {
      CostShape(p.start, p.end, p.half, HolidaysOfYear(db.holidays, Year(p.start)));
    }
  }

  lemma CheckIsAdmission(db: Db, user: nat, p: LeavePayload)
    requires Inv(db)
    ensures CheckRequest(db, user, p) ==
            if Admissible(db, user, p) then Success(DaysCharged(db, p)) else Failure(Refusal(db, user, p))
  {
    if user < |db.users| && p.typ < |db.types| && p.start <= p.end {
      ConflictsAreBookings(db.requests, user, p.start, p.end);
      TargetIsAvailable(db, user, p.typ, Year(p.start));
      CheckMeansAdmission(db, user, p);
    }
  }

  // The request an admissible application becomes.
  ghost function FiledRequest(db: Db, user: nat, p: LeavePayload): Request
    requires p.typ < |db.types|
  {
    var auto := ApprovedAtOnce(db.types[p.typ], DatesCharged(db, p), p.half);
    Request(user, p.typ, p.start, p.end, p.half, DaysCharged(db, p), if auto then Approved else Pending, auto, None)
  }

  // apply_leave files a request exactly when it is admissible, for the dates it charges; it is
  // approved at once exactly when its leave type needs no approval or its threshold covers
  // those dates.
  lemma AdmissionRule(db: Db, user: nat, p: LeavePayload)
    requires Inv(db)
    ensures ApplyLeave(db, user, p).Success? <==> Admissible(db, user, p)
    ensures Admissible(db, user, p) ==>
              ApplyLeave(db, user, p).value.requests == db.requests + [FiledRequest(db, user, p)]
    ensures !Admissible(db, user, p) ==> ApplyLeave(db, user, p) == Failure(Refusal(db, user, p))
  {
    CheckIsAdmission(db, user, p);
    if Admissible(db, user, p) {
      ThresholdInDates(db.types[p.typ], db, p);
      FileAdmitted(db, user, p, DaysCharged(db, p));
    }
  }

  lemma FileAdmitted(db: Db, user: nat, p: LeavePayload, total: int)
    requires Inv(db) && user < |db.users| && p.typ < |db.types|
    ensures FileRequest(db, user, p, total).Success?
    ensures FileRequest(db, user, p, total).value.requests == db.requests + [NewRequest(db, user, p, total)]
  {
    OpenTypesKeepsInv(db, user, Year(p.start), |db.types|);
    FileRequestCharges(db, user, p, total);
  }

  // --- Balances after an automatic approval -----------------------------------

  lemma GrownRowIsAvailable(db: Db, user: nat, typ: nat, year: int, i: nat)
    requires UniqueKeys(db.allocations) && UsedDays(db.types, db.requests, db.allocations) && typ < |db.types|
    requires i < |OpenYear(db, user, year)| && OpenYear(db, user, year)[i].key == Key(user, typ, year)
    ensures OpenYear(db, user, year)[i].Remaining() == Available(db, Key(user, typ, year))
  {
    var b := Balance(typ, OpenYear(db, user, year)[i].Remaining());
    assert ReportsRow(b, OpenYear(db, user, year), Key(user, typ, year));
    ReportIsAvailable(db, b, user, typ, year);
  }

  // apply_leave never makes a balance negative: it leaves every row it does not charge as
  // it was, and the row it charges, paid and automatically approved, keeps at least zero.
  lemma ApplyLeavesNoDebt(db: Db, user: nat, p: LeavePayload, i: nat)
    requires Inv(db) && ApplyLeave(db, user, p).Success?
    requires i < |ApplyLeave(db, user, p).value.allocations|
    ensures var after := ApplyLeave(db, user, p).value;
            var r := NewRequest(db, user, p, CheckRequest(db, user, p).value);
            var grown := OpenYear(db, user, Year(p.start));
            && |after.allocations| == |grown|
            && if after.allocations[i].key == r.DrawsOn() && r.autoApproved && db.IsPaid(p.typ)
               then after.allocations[i].Remaining() >= 0
               else after.allocations[i].Remaining() == grown[i].Remaining()
  {
    CheckIsAdmission(db, user, p);
    ChargedRowKeepsCredit(db, user, p, CheckRequest(db, user, p).value, i);
  }

  lemma ChargedRowKeepsCredit(db: Db, user: nat, p: LeavePayload, total: int, i: nat)
    requires Inv(db) && user < |db.users| && p.typ < |db.types|
    requires db.IsPaid(p.typ) ==> total <= Available(db, Key(user, p.typ, Year(p.start)))
    requires FileRequest(db, user, p, total).Success?
    requires i < |FileRequest(db, user, p, total).value.allocations|
    ensures var after := FileRequest(db, user, p, total).value;
            var r := NewRequest(db, user, p, total);
            var grown := OpenYear(db, user, Year(p.start));
            && |after.allocations| == |grown|
            && if after.allocations[i].key == r.DrawsOn() && r.autoApproved && db.IsPaid(p.typ)
               then after.allocations[i].Remaining() >= 0
               else after.allocations[i].Remaining() == grown[i].Remaining()
  {
    var grown := OpenYear(db, user, Year(p.start));
    assert UniqueKeys(grown) by { OpenTypesKeepsInv(db, user, Year(p.start), |db.types|); }
    FileRequestCharges(db, user, p, total);
    if grown[i].key == Key(user, p.typ, Year(p.start)) {
      GrownRowIsAvailable(db, user, p.typ, Year(p.start), i);
    }
  }

  // --- Holidays ---------------------------------------------------------------

  // A holiday can be added exactly when its date is free; it then is one, no other date becomes
  // or ceases to be one, and an application is charged for one date less when the holiday is a
  // weekday of its period in its start year, and for the same dates otherwise.
  lemma HolidayTakesEffect(db: Db, date: Date, p: LeavePayload)
    ensures CreateHoliday(db, date).Success? <==> date !in db.holidays
    ensures date !in db.holidays ==>
              var after := CreateHoliday(db, date).value;
              && (forall d: Date :: d in after.holidays <==> d in db.holidays || d == date)
              && after.audit == db.audit + [HolidayCreated(date)]
              && DatesCharged(after, p) == DatesCharged(db, p) - (if Year(date) == Year(p.start) then {date} else {})
              && |DatesCharged(after, p)| ==
                 |DatesCharged(db, p)|
                 - if p.start <= date <= p.end && Weekday(date) < 5 && Year(date) == Year(p.start) then 1 else 0
  {
    if date !in db.holidays {
      var after := CreateHoliday(db, date).value;
      var dropped: set<int> := if Year(date) == Year(p.start) then {date} else {};
      forall d: int
        ensures d in DatesCharged(after, p) <==> d in DatesCharged(db, p) - dropped
      {
      }
      assert DatesCharged(after, p) == DatesCharged(db, p) - dropped;
      assert date in DatesCharged(db, p) <==> p.start <= date <= p.end && Weekday(date) < 5;
    }
  }

  // --- What is reported -------------------------------------------------------

  // Every leave type is reported with what an application may still take.
  lemma BalanceIsAvailable(db: Db, user: nat, year: int, t: nat)
    requires UniqueKeys(db.allocations) && UsedDays(db.types, db.requests, db.allocations)
    requires t < |db.types|
    requires ReportsRows(Balances(db.allocations, db.types, user, year, |db.types|), OpenYear(db, user, year), user, year)
    ensures Balances(db.allocations, db.types, user, year, |db.types|)[t] ==
            Balance(t, Available(db, Key(user, t, year)))
  {
    var b := Balances(db.allocations, db.types, user, year, |db.types|)[t];
    ReportIsAvailable(db, b, user, t, year);
  }

  lemma ReportedBalances(db: Db, user: nat, year: int)
    requires Inv(db)
    ensures forall t :: 0 <= t < |db.types| ==>
              Balances(db.allocations, db.types, user, year, |db.types|)[t] ==
              Balance(t, Available(db, Key(user, t, year)))
  {
    BalancesReportRows(db.allocations, db.types, user, year, |db.types|);
    forall t: nat | t < |db.types|
      ensures Balances(db.allocations, db.types, user, year, |db.types|)[t] ==
              Balance(t, Available(db, Key(user, t, year)))
    {
      BalanceIsAvailable(db, user, year, t);
    }
  }
}
