/**
 Each way a balance falls below zero is met from empty tables, by a user 0 and a leave type 0
 on any working dates.
 */
module DebtWitnesses {
  import opened Wrappers
  import opened Calendar
  import opened WorkingDays
  import opened Records
  import opened Ledger
  import opened LedgerInvariant
  import opened LedgerSteps
  import opened LedgerRuns
  import opened Admission
  import opened AllocationViews
  import opened Debts

  // One user, one leave type, no holidays, and nothing has happened yet.
  ghost function Office(t: LeaveType, policies: seq<Policy>): Db {
    Db([User(None, true)], [t], [], [], [], policies, [], [])
  }

  function KeyOf(y: int): Key { Key(0, 0, y) }

  // The application for the single date d.
  function ForDay(d: Date): Event { LeaveRequested(0, LeavePayload(0, d, d, WholeDays)) }

  // A day is approved at once.
  predicate AtOnce(t: LeaveType) { !t.requiresApproval || t.autoApproveThreshold >= 1 }

  ghost function DayRequest(t: LeaveType, d: Date): Request {
    var auto := AtOnce(t);
    Request(0, 0, d, d, WholeDays, FULL_DAY, if auto then Approved else Pending, auto, None)
  }

  // The allocation after n such applications: their days are used when approved at once.
  ghost function FiledRow(t: LeaveType, y: int, n: nat): Allocation {
    Fresh(KeyOf(y), t.defaultQuota).(usedDays := if AtOnce(t) then n * FULL_DAY else 0)
  }

  // The tables when the office has seen applications for the given dates of year y.
  ghost predicate DaysFiled(db: Db, t: LeaveType, policies: seq<Policy>, days: seq<Date>, y: int) {
    && db == Office(t, policies).(requests := db.requests, allocations := db.allocations, audit := db.audit)
    && |db.requests| == |days|
    && (forall r :: 0 <= r < |days| ==> db.requests[r] == DayRequest(t, days[r]))
    && View(db, KeyOf(y)) ==
       if days == [] then None else Some(FiledRow(t, y, |days|))
  }

  ghost predicate FreeDay(days: seq<Date>, d: Date) {
    d < MAX_ORDINAL && Weekday(d) < 5 && d !in days
  }

  // A working day is charged as a day.
  lemma DayCosts(db: Db, d: Date)
    requires db.holidays == [] && d < MAX_ORDINAL && Weekday(d) < 5
    ensures DatesCharged(db, ForDay(d).payload) == {d} && DaysCharged(db, ForDay(d).payload) == FULL_DAY
  {
    forall e: int
      ensures e in DatesCharged(db, ForDay(d).payload) <==> e == d
    {
    }
    assert DatesCharged(db, ForDay(d).payload) == {d};
  }

  lemma DayIsAdmissible(db: Db, t: LeaveType, policies: seq<Policy>, days: seq<Date>, d: Date)
    requires DaysFiled(db, t, policies, days, Year(d)) && FreeDay(days, d)
    requires Available(db, KeyOf(Year(d))) >= FULL_DAY
    ensures Admissible(db, 0, ForDay(d).payload)
  {
    DayCosts(db, d);
    assert !Booked(db.requests, 0, d, d) by {
      assert forall r :: 0 <= r < |days| ==> days[r] != d;
    }
  }

  lemma FilesDay(db: Db, t: LeaveType, policies: seq<Policy>, days: seq<Date>, d: Date)
    requires UniqueKeys(OpenYear(db, 0, Year(d))) && DaysFiled(db, t, policies, days, Year(d)) && FreeDay(days, d)
    requires CheckRequest(db, 0, ForDay(d).payload) == Success(FULL_DAY)
    ensures var after := Step(db, ForDay(d));
            after == db.(requests := db.requests + [DayRequest(t, d)], allocations := after.allocations,
                         audit := after.audit)
  {
    FileRequestCharges(db, 0, ForDay(d).payload, FULL_DAY);
  }

  lemma NextDayView(db: Db, t: LeaveType, policies: seq<Policy>, days: seq<Date>, d: Date)
    requires DaysFiled(db, t, policies, days, Year(d)) && t.name != Unpaid
    requires Admissible(db, 0, ForDay(d).payload) && DaysCharged(db, ForDay(d).payload) == FULL_DAY
    ensures ViewAfter(db, ForDay(d), KeyOf(Year(d))) == Some(FiledRow(t, Year(d), |days| + 1))
  {
  }

  lemma DayChecks(db: Db, t: LeaveType, policies: seq<Policy>, days: seq<Date>, d: Date)
    requires Inv(db) && DaysFiled(db, t, policies, days, Year(d)) && FreeDay(days, d) && t.name != Unpaid
    requires t.defaultQuota >= if AtOnce(t) then (|days| + 1) * FULL_DAY else FULL_DAY
    ensures Admissible(db, 0, ForDay(d).payload) && DaysCharged(db, ForDay(d).payload) == FULL_DAY
    ensures CheckRequest(db, 0, ForDay(d).payload) == Success(FULL_DAY)
  {
    assert SoundView(db, KeyOf(Year(d))) by { ViewIsSound(db, KeyOf(Year(d))); }
    DayIsAdmissible(db, t, policies, days, d);
    CheckIsAdmission(db, 0, ForDay(d).payload);
    DayCosts(db, d);
  }

  lemma DaysGrow(db: Db, after: Db, t: LeaveType, policies: seq<Policy>, days: seq<Date>, d: Date)
    requires DaysFiled(db, t, policies, days, Year(d))
    requires after == db.(requests := db.requests + [DayRequest(t, d)], allocations := after.allocations,
                          audit := after.audit)
    requires View(after, KeyOf(Year(d))) == Some(FiledRow(t, Year(d), |days| + 1))
    ensures DaysFiled(after, t, policies, days + [d], Year(d))
  {
  }

  lemma NextDayFiled(db: Db, t: LeaveType, policies: seq<Policy>, days: seq<Date>, d: Date)
    requires Inv(db) && DaysFiled(db, t, policies, days, Year(d)) && FreeDay(days, d) && t.name != Unpaid
    requires t.defaultQuota >= if AtOnce(t) then (|days| + 1) * FULL_DAY else FULL_DAY
    ensures DaysFiled(Step(db, ForDay(d)), t, policies, days + [d], Year(d))
  {
    DayChecks(db, t, policies, days, d);
    assert UniqueKeys(OpenYear(db, 0, Year(d))) by { OpenTypesKeepsInv(db, 0, Year(d), |db.types|); }
    FilesDay(db, t, policies, days, d);
    StepView(db, ForDay(d), KeyOf(Year(d)));
    NextDayView(db, t, policies, days, d);
    DaysGrow(db, Step(db, ForDay(d)), t, policies, days, d);
  }

  lemma RunAppend(db: Db, evs: seq<Event>, ev: Event)
    ensures Run(db, evs + [ev]) == Step(Run(db, evs), ev)
  {
    assert (evs + [ev])[..|evs|] == evs;
  }

  lemma RunOfTwo(db: Db, a: Event, b: Event)
    ensures Run(db, [a]) == Step(db, a) && Run(db, [a, b]) == Step(Step(db, a), b)
  {
    RunAppend(db, [], a);
    RunAppend(db, [a], b);
    assert [] + [a] == [a] && [a] + [b] == [a, b];
  }

  lemma OfficeOpens(t: LeaveType, policies: seq<Policy>, y: int)
    requires Initial(Office(t, policies))
    ensures Inv(Office(t, policies)) && DaysFiled(Office(t, policies), t, policies, [], y)
  {
    InitialInv(Office(t, policies));
  }

  lemma TwoDaysFrom(db: Db, t: LeaveType, policies: seq<Policy>, d: Date, e: Date)
    requires Inv(db) && DaysFiled(db, t, policies, [], Year(d)) && t.name != Unpaid
    requires FreeDay([], d) && FreeDay([d], e) && Year(d) == Year(e)
    requires t.defaultQuota >= if AtOnce(t) then 2 * FULL_DAY else FULL_DAY
    ensures var after := Step(Step(db, ForDay(d)), ForDay(e));
            Inv(after) && DaysFiled(after, t, policies, [d, e], Year(d))
  {
    var one := Step(db, ForDay(d));
    NextDayFiled(db, t, policies, [], d);
    assert [] + [d] == [d] && [d] + [e] == [d, e];
    StepKeepsInv(db, ForDay(d));
    NextDayFiled(one, t, policies, [d], e);
    StepKeepsInv(one, ForDay(e));
  }

  // Applications for two working dates of one year.
  lemma TwoDaysFiled(t: LeaveType, policies: seq<Policy>, d: Date, e: Date)
    requires Initial(Office(t, policies)) && t.name != Unpaid
    requires FreeDay([], d) && FreeDay([d], e) && Year(d) == Year(e)
    requires t.defaultQuota >= if AtOnce(t) then 2 * FULL_DAY else FULL_DAY
    ensures var after := Run(Office(t, policies), [ForDay(d), ForDay(e)]);
            Inv(after) && DaysFiled(after, t, policies, [d, e], Year(d))
  {
    OfficeOpens(t, policies, Year(d));
    TwoDaysFrom(Office(t, policies), t, policies, d, e);
    RunOfTwo(Office(t, policies), ForDay(d), ForDay(e));
  }

  // --- By approval ------------------------------------------------------------

  lemma BothApproved(db: Db, t: LeaveType, d: Date, e: Date)
    requires Inv(db) && DaysFiled(db, t, [], [d, e], Year(d)) && Year(d) == Year(e)
    requires t.name != Unpaid && !AtOnce(t) && t.defaultQuota < 2 * FULL_DAY
    ensures InDebt(Step(Step(db, StatusSet(0, Approved, 0)), StatusSet(1, Approved, 0)), KeyOf(Year(d)))
  {
    assert db.requests[0] == DayRequest(t, d) && db.requests[1] == DayRequest(t, e);
    TwoApprovalsOverdraw(db, 0, 1, 0);
  }

  lemma RunOfFour(db: Db, a: Event, b: Event, c: Event, d: Event)
    ensures Run(db, [a, b, c]) == Step(Run(db, [a, b]), c)
    ensures Run(db, [a, b, c, d]) == Step(Step(Run(db, [a, b]), c), d)
  {
    RunAppend(db, [a, b], c);
    RunAppend(db, [a, b, c], d);
    assert [a, b] + [c] == [a, b, c] && [a, b, c] + [d] == [a, b, c, d];
  }

  // Less than two days are allocated, two are applied for, and a manager approves both.
  lemma DebtByApproval(t: LeaveType, d: Date, e: Date)
    requires t.name != Unpaid && !AtOnce(t) && FULL_DAY <= t.defaultQuota < 2 * FULL_DAY
    requires FreeDay([], d) && FreeDay([d], e) && Year(d) == Year(e)
    ensures var evs := [ForDay(d), ForDay(e), StatusSet(0, Approved, 0), StatusSet(1, Approved, 0)];
            Initial(Office(t, [])) && InDebt(Run(Office(t, []), evs), KeyOf(Year(d)))
  {
    var db := Office(t, []);
    TwoDaysFiled(t, [], d, e);
    BothApproved(Run(db, [ForDay(d), ForDay(e)]), t, d, e);
    RunOfFour(db, ForDay(d), ForDay(e), StatusSet(0, Approved, 0), StatusSet(1, Approved, 0));
  }

  // --- By accrual -------------------------------------------------------------

  lemma OnlyTurnIsDue(db: Db, p: Policy, today: Date)
    requires |db.users| == 1 && db.policies == [p] && Targets(p, db.users[0].designation) && p.typ == 0
    requires OrFresh(View(db, KeyOf(Year(today))), KeyOf(Year(today))).lastAccrual == None
    ensures InRange(db, Turns([0], [0])) && FirstDue(db, Turns([0], [0]), today, KeyOf(Year(today))) == Some(Turn(0, 0))
  {
    assert Turns1(0, [0]) == [Turn(0, 0)];
    assert Turns([0], [0]) == [Turn(0, 0)];
    assert HitsDue(db, Turn(0, 0), today, KeyOf(Year(today)));
    assert FirstDue(db, [], today, KeyOf(Year(today))) == None;
  }

  lemma RunCuts(db: Db, p: Policy, today: Date, floor: int)
    requires |db.users| == 1 && db.policies == [p] && Targets(p, db.users[0].designation) && p.typ == 0
    requires OrFresh(View(db, KeyOf(Year(today))), KeyOf(Year(today))).lastAccrual == None
    requires p.maxQuota.Some? && p.maxQuota.value < floor
    ensures RunCutsBelow(db, AccrualRun([0], [0], today), KeyOf(Year(today)), floor)
  {
    OnlyTurnIsDue(db, p, today);
  }

  lemma CutOverdraws(db: Db, t: LeaveType, p: Policy, d: Date, e: Date, today: Date)
    requires DaysFiled(db, t, [p], [d, e], Year(today))
    requires AtOnce(t) && t.defaultQuota >= 2 * FULL_DAY
    requires Targets(p, None) && p.typ == 0 && p.maxQuota.Some? && p.maxQuota.value < 2 * FULL_DAY
    ensures Overdraws(db, AccrualRun([0], [0], today), KeyOf(Year(today))) && !InDebt(db, KeyOf(Year(today)))
  {
    RunCuts(db, p, today, 2 * FULL_DAY);
  }

  lemma UsedThenCut(db: Db, t: LeaveType, p: Policy, d: Date, e: Date, today: Date)
    requires Inv(db) && DaysFiled(db, t, [p], [d, e], Year(today))
    requires AtOnce(t) && t.defaultQuota >= 2 * FULL_DAY
    requires Targets(p, None) && p.typ == 0 && p.maxQuota.Some? && p.maxQuota.value < 2 * FULL_DAY
    ensures InDebt(Step(db, AccrualRun([0], [0], today)), KeyOf(Year(today)))
  {
    CutOverdraws(db, t, p, d, e, today);
    DebtRule(db, AccrualRun([0], [0], today), KeyOf(Year(today)));
  }

  // Two days are allocated by default and taken; an accrual then cuts the allocation to a
  // quota below two days.
  lemma DebtByAccrual(t: LeaveType, p: Policy, d: Date, e: Date, today: Date)
    requires t.name != Unpaid && AtOnce(t) && t.defaultQuota >= 2 * FULL_DAY
    requires FreeDay([], d) && FreeDay([d], e) && Year(d) == Year(e) == Year(today)
    requires Targets(p, None) && p.typ == 0 && p.rate > 0 && p.maxQuota.Some? && p.maxQuota.value < 2 * FULL_DAY
    ensures var evs := [ForDay(d), ForDay(e), AccrualRun([0], [0], today)];
            Initial(Office(t, [p])) && InDebt(Run(Office(t, [p]), evs), KeyOf(Year(today)))
  {
    var db := Office(t, [p]);
    TwoDaysFiled(t, [p], d, e);
    UsedThenCut(Run(db, [ForDay(d), ForDay(e)]), t, p, d, e, today);
    RunOfFour(db, ForDay(d), ForDay(e), AccrualRun([0], [0], today), AccrualRun([0], [0], today));
  }

  lemma CutBelowZero(db: Db, t: LeaveType, p: Policy, today: Date)
    requires DaysFiled(db, t, [p], [], Year(today))
    requires Targets(p, None) && p.typ == 0 && p.maxQuota.Some? && p.maxQuota.value < 0
    ensures AllocatesBelowZero(db, AccrualRun([0], [0], today), KeyOf(Year(today)))
    ensures !AllocatedBelowZero(View(db, KeyOf(Year(today))))
  {
    RunCuts(db, p, today, 0);
  }

  lemma OpensNegative(db: Db, t: LeaveType, p: Policy, today: Date)
    requires Inv(db) && DaysFiled(db, t, [p], [], Year(today))
    requires Targets(p, None) && p.typ == 0 && p.maxQuota.Some? && p.maxQuota.value < 0
    ensures AllocatedBelowZero(View(Step(db, AccrualRun([0], [0], today)), KeyOf(Year(today))))
  {
    CutBelowZero(db, t, p, today);
    ColumnChecks(db, AccrualRun([0], [0], today), KeyOf(Year(today)));
  }

  // A negative quota opens the allocation itself below zero.
  lemma NegativeByAccrual(t: LeaveType, p: Policy, today: Date)
    requires Targets(p, None) && p.typ == 0 && p.rate > 0 && p.maxQuota.Some? && p.maxQuota.value < 0
    ensures Initial(Office(t, [p]))
    ensures AllocatedBelowZero(View(Run(Office(t, [p]), [AccrualRun([0], [0], today)]), KeyOf(Year(today))))
  {
    var db := Office(t, [p]);
    OfficeOpens(t, [p], Year(today));
    OpensNegative(db, t, p, today);
    RunOfTwo(db, AccrualRun([0], [0], today), AccrualRun([0], [0], today));
  }

  // --- By default -------------------------------------------------------------

  lemma DebtByDefault(t: LeaveType, y: int)
    requires t.defaultQuota < 0
    ensures Initial(Office(t, [])) && InDebt(Run(Office(t, []), [BalancesViewed(0, y)]), KeyOf(y))
  {
    var db := Office(t, []);
    OfficeOpens(t, [], y);
    DebtRule(db, BalancesViewed(0, y), KeyOf(y));
    RunOfTwo(db, BalancesViewed(0, y), BalancesViewed(0, y));
  }
}
