/** Every operation keeps the invariant, hence so does every run of the system. */
module LedgerSteps {
  import opened Wrappers
  import opened Calendar
  import opened Records
  import opened Repository
  import opened Ledger
  import opened LedgerInvariant

  // --- Opening balances -------------------------------------------------------

  lemma KeptHasKey(a: seq<Allocation>, b: seq<Allocation>, k: Key)
    requires KeepsKeys(a, b)
    ensures HasKey(a, k) ==> HasKey(b, k)
  {
  }

  ghost function WithAllocations(db: Db, allocations: seq<Allocation>): Db {
    db.(allocations := allocations)
  }

  lemma OpenAtKeepsInv(db: Db, a: seq<Allocation>, k: Key, days: int)
    requires Inv(WithAllocations(db, a)) && k.user < |db.users| && OpensAt(db.types, k, days)
    ensures Inv(WithAllocations(db, OpenAt(a, k, days)))
  {
    if !HasKey(a, k) {
      OpenKeepsInv(WithAllocations(db, a), k, days);
    }
  }

  // One more leave type met.
  lemma OpenTypeKeepsInv(db: Db, user: nat, year: int, n: nat)
    requires 0 < n <= |db.types| && user < |db.users|
    requires Inv(WithAllocations(db, OpenTypes(db.allocations, db.types, user, year, n - 1)))
    ensures Inv(WithAllocations(db, OpenTypes(db.allocations, db.types, user, year, n)))
  {
    OpenAtKeepsInv(db, OpenTypes(db.allocations, db.types, user, year, n - 1), Key(user, n - 1, year),
                   db.types[n - 1].defaultQuota);
  }

  lemma {:induction false} OpenTypesKeepsInv(db: Db, user: nat, year: int, n: nat)
    requires Inv(db) && user < |db.users| && n <= |db.types|
    ensures Inv(WithAllocations(db, OpenTypes(db.allocations, db.types, user, year, n)))
  {
    if n == 0 {
      assert db == WithAllocations(db, db.allocations);
    } else {
      OpenTypesKeepsInv(db, user, year, n - 1);
      OpenTypeKeepsInv(db, user, year, n);
    }
  }

  // A row that get_user_balances has just opened.
  ghost predicate OpenedRow(a: Allocation, types: seq<LeaveType>, user: nat, year: int, n: nat)
    requires n <= |types|
  {
    a.key.typ < n && a == Fresh(Key(user, a.key.typ, year), types[a.key.typ].defaultQuota)
  }

  // Existing rows are untouched, the rows added are fresh, and each of the n leave types
  // has a row afterwards.
  lemma {:induction false} OpenTypesOpens(allocations: seq<Allocation>, types: seq<LeaveType>,
                                          user: nat, year: int, n: nat)
    requires n <= |types|
    ensures var grown := OpenTypes(allocations, types, user, year, n);
            && allocations <= grown
            && (forall t :: 0 <= t < n ==> HasKey(grown, Key(user, t, year)))
            && (forall i :: |allocations| <= i < |grown| ==>
                  OpenedRow(grown[i], types, user, year, n) && !HasKey(allocations, grown[i].key))
  {
    if n > 0 {
      OpenTypesOpens(allocations, types, user, year, n - 1);
      var before := OpenTypes(allocations, types, user, year, n - 1);
      var k := Key(user, n - 1, year);
      OpenAtOpens(before, k, types[n - 1].defaultQuota);
      var after := OpenTypes(allocations, types, user, year, n);
      KeptHasKey(allocations, before, k);
      forall t | 0 <= t < n
        ensures HasKey(after, Key(user, t, year))
      {
        KeptHasKey(before, after, Key(user, t, year));
      }
    }
  }

  // --- Changing used_days -----------------------------------------------------

  // Only the row of k differs, by delta used days.
  ghost predicate Shifted(a: seq<Allocation>, b: seq<Allocation>, k: Key, delta: int) {
    && |b| == |a|
    && forall i :: 0 <= i < |a| ==>
         b[i] == if a[i].key == k then a[i].(usedDays := a[i].usedDays + delta) else a[i]
  }

  lemma UseDaysShifts(a: seq<Allocation>, k: Key, total: int)
    requires UniqueKeys(a) && HasKey(a, k)
    ensures UseDays(a, k, total).Success? && Shifted(a, UseDays(a, k, total).value, k, total)
  {
  }

  // The floor of zero under a restored `used_days` does not bind when the days were used.
  lemma RestoreDaysShifts(a: seq<Allocation>, k: Key, total: int)
    requires UniqueKeys(a) && HasKey(a, k)
    requires forall i :: 0 <= i < |a| && a[i].key == k ==> total <= a[i].usedDays
    ensures RestoreDays(a, k, total).Success? && Shifted(a, RestoreDays(a, k, total).value, k, -total)
  {
  }

  lemma ShiftKeepsUse(types: seq<LeaveType>, requests: seq<Request>, after: seq<Request>,
                      a: seq<Allocation>, b: seq<Allocation>, k: Key, days: int, delta: int)
    requires UsedDays(types, requests, a) && Shifted(a, b, k, delta)
    requires delta == if k.typ < |types| && types[k.typ].name != Unpaid then days else 0
    requires forall l :: ApprovedDays(after, l) == ApprovedDays(requests, l) + if l == k then days else 0
    ensures UsedDays(types, after, b)
  {
  }

  lemma ShiftKeepsRest(db: Db, b: seq<Allocation>, k: Key, delta: int)
    requires References(db) && UniqueKeys(db.allocations) && Covered(db.requests, db.allocations)
    requires FaithfulAudit(db.types, db.allocations, db.audit) && AccrualHistories(db.allocations, db.audit)
    requires Shifted(db.allocations, b, k, delta)
    ensures UniqueKeys(b) && Covered(db.requests, b)
    ensures FaithfulAudit(db.types, b, db.audit) && AccrualHistories(b, db.audit)
    ensures References(db.(allocations := b))
  {
    KeptKeysCover(db.requests, db.allocations, b);
    forall i | 0 <= i < |b|
      ensures Accounted(db.types, b[i], i, db.audit) && AccrualHistory(AccrualsOf(db.audit, i), b[i])
    {
      assert Accounted(db.types, db.allocations[i], i, db.audit);
      assert AccrualHistory(AccrualsOf(db.audit, i), db.allocations[i]);
    }
  }

  // --- Requests ---------------------------------------------------------------

  lemma NewRequestIsDisjoint(requests: seq<Request>, r: Request)
    requires NoDoubleBooking(requests) && RequestStates(requests) && r.start <= r.end
    requires OverlappingRequests(requests, r.user, r.start, r.end) == []
    ensures NoDoubleBooking(requests + [r])
  {
  }

  lemma NewRequestKeepsApprovals(requests: seq<Request>, approvals: seq<Approval>, r: Request)
    requires ApprovalRows(requests, approvals) && r.approver == None
    ensures ApprovalRows(requests + [r], approvals)
  {
    NeverApproved(approvals, |requests|);
  }

  lemma {:induction false} NeverApproved(approvals: seq<Approval>, id: nat)
    requires forall a :: 0 <= a < |approvals| ==> approvals[a].request < id
    ensures ApprovalsOf(approvals, id) == 0
  {
    if approvals != [] {
      NeverApproved(approvals[..|approvals| - 1], id);
    }
  }

  // Adding a request and charging it (when it is approved and paid) keeps the conservation law.
  lemma NewRequestKeepsUse(db: Db, r: Request, b: seq<Allocation>)
    requires Inv(db)
    requires Shifted(db.allocations, b, r.DrawsOn(), ChargeOf(db, r))
    ensures UsedDays(db.types, db.requests + [r], b)
  {
    forall l
      ensures ApprovedDays(db.requests + [r], l) == ApprovedDays(db.requests, l) + Charge(r, l)
    {
      ApprovedDaysAppend(db.requests, r, l);
    }
    ShiftKeepsUse(db.types, db.requests, db.requests + [r], db.allocations, b, r.DrawsOn(),
                  if r.status == Approved then r.total else 0, ChargeOf(db, r));
  }

  lemma NewRequestKeepsTables(db: Db, r: Request)
    requires NoDoubleBooking(db.requests) && RequestStates(db.requests) && ApprovalRows(db.requests, db.approvals)
    requires Covered(db.requests, db.allocations)
    requires HasKey(db.allocations, r.DrawsOn()) && RequestState(r) && r.approver == None
    requires OverlappingRequests(db.requests, r.user, r.start, r.end) == []
    ensures Covered(db.requests + [r], db.allocations)
    ensures NoDoubleBooking(db.requests + [r]) && RequestStates(db.requests + [r])
    ensures ApprovalRows(db.requests + [r], db.approvals)
  {
    NewRequestIsDisjoint(db.requests, r);
    NewRequestKeepsApprovals(db.requests, db.approvals, r);
  }

  ghost function ChargeOf(db: Db, r: Request): int {
    if r.status == Approved && db.IsPaid(r.typ) then r.total else 0
  }

  lemma ChargedKeepsInv(db: Db, r: Request, b: seq<Allocation>)
    requires Inv(db) && r.typ < |db.types| && HasKey(db.allocations, r.DrawsOn())
    requires RequestState(r) && r.approver == None
    requires OverlappingRequests(db.requests, r.user, r.start, r.end) == []
    requires Shifted(db.allocations, b, r.DrawsOn(), ChargeOf(db, r))
    ensures Inv(db.(requests := db.requests + [r], allocations := b))
  {
    NewRequestKeepsTables(db, r);
    assert UsedDays(db.types, db.requests + [r], b) by { NewRequestKeepsUse(db, r, b); }
    ShiftKeepsRest(db.(requests := db.requests + [r]), b, r.DrawsOn(), ChargeOf(db, r));
  }

  lemma NoteKeepsInv(db: Db, e: AuditEntry)
    requires Inv(db) && !e.ManualGrant? && !e.PeriodicAccrual?
    ensures Inv(db.(audit := db.audit + [e]))
  {
  }

  // The request row is added, its allocation exists, and exactly that one is charged.
  lemma FileRequestCharges(db: Db, user: nat, p: LeavePayload, total: int)
    requires p.typ < |db.types| && UniqueKeys(OpenYear(db, user, Year(p.start)))
    ensures var r := NewRequest(db, user, p, total);
            var grown := OpenYear(db, user, Year(p.start));
            var o := FileRequest(db, user, p, total);
            && HasKey(grown, r.DrawsOn())
            && o.Success?
            && Shifted(grown, o.value.allocations, r.DrawsOn(), ChargeOf(db, r))
            && o.value == db.(requests := db.requests + [r], allocations := o.value.allocations,
                              audit := db.audit + [LeaveApplied(user, |db.requests|, total, r.status)])
  {
    var r := NewRequest(db, user, p, total);
    var grown := OpenYear(db, user, Year(p.start));
    assert HasKey(grown, r.DrawsOn()) by {
      OpenTypesOpens(db.allocations, db.types, user, Year(p.start), |db.types|);
    }
    UseDaysShifts(grown, r.DrawsOn(), total);
  }

  lemma FileRequestKeepsInv(db: Db, user: nat, p: LeavePayload, total: int)
    requires Inv(db) && user < |db.users| && p.typ < |db.types| && p.start <= p.end && total > 0
    requires OverlappingRequests(db.requests, user, p.start, p.end) == []
    ensures FileRequest(db, user, p, total).Success?
    ensures Inv(FileRequest(db, user, p, total).value)
  {
    var r := NewRequest(db, user, p, total);
    var grown := db.(allocations := OpenYear(db, user, Year(p.start)));
    assert Inv(grown) by { OpenTypesKeepsInv(db, user, Year(p.start), |db.types|); }
    FileRequestCharges(db, user, p, total);
    var after := FileRequest(db, user, p, total).value;
    ChargedAndNotedKeepsInv(grown, r, after.allocations, after);
  }

  lemma ChargedAndNotedKeepsInv(db: Db, r: Request, b: seq<Allocation>, after: Db)
    requires Inv(db) && r.typ < |db.types| && HasKey(db.allocations, r.DrawsOn())
    requires RequestState(r) && r.approver == None
    requires OverlappingRequests(db.requests, r.user, r.start, r.end) == []
    requires Shifted(db.allocations, b, r.DrawsOn(), ChargeOf(db, r))
    requires after == db.(requests := db.requests + [r], allocations := b,
                          audit := db.audit + [LeaveApplied(r.user, |db.requests|, r.total, r.status)])
    ensures Inv(after)
  {
    var charged := db.(requests := db.requests + [r], allocations := b);
    assert Inv(charged) by { ChargedKeepsInv(db, r, b); }
    NoteKeepsInv(charged, LeaveApplied(r.user, |db.requests|, r.total, r.status));
  }

  // What the checks of apply_leave have established when they pass.
  lemma CheckedRequest(db: Db, user: nat, p: LeavePayload)
    requires CheckRequest(db, user, p).Success?
    ensures user < |db.users| && p.typ < |db.types| && p.start <= p.end && CheckRequest(db, user, p).value > 0
    ensures OverlappingRequests(db.requests, user, p.start, p.end) == []
    ensures ApplyLeave(db, user, p) == FileRequest(db, user, p, CheckRequest(db, user, p).value)
  {
  }

  lemma ApplyLeaveKeepsInv(db: Db, user: nat, p: LeavePayload)
    requires Inv(db)
    ensures Inv(Commit(db, ApplyLeave(db, user, p)))
  {
    var check := CheckRequest(db, user, p);
    if check.Success? {
      CheckedRequest(db, user, p);
      FileRequestKeepsInv(db, user, p, check.value);
    }
  }

  // --- Decisions and cancellations --------------------------------------------

  // r2 is request r with another status (and perhaps an approver); no dead request revives.
  ghost predicate Revises(r: Request, r2: Request) {
    && r2 == r.(status := r2.status, approver := r2.approver)
    && (r2.Live() ==> r.Live())
    && RequestState(r2)
  }

  lemma RevisionKeepsUse(db: Db, id: nat, r2: Request, b: seq<Allocation>)
    requires UsedDays(db.types, db.requests, db.allocations) && id < |db.requests| && Revises(db.requests[id], r2)
    requires Shifted(db.allocations, b, r2.DrawsOn(), ChargeOf(db, r2) - ChargeOf(db, db.requests[id]))
    ensures UsedDays(db.types, db.requests[id := r2], b)
  {
    var r := db.requests[id];
    forall l
      ensures ApprovedDays(db.requests[id := r2], l) == ApprovedDays(db.requests, l) - Charge(r, l) + Charge(r2, l)
    {
      ApprovedDaysUpdate(db.requests, id, r2, l);
    }
    ShiftKeepsUse(db.types, db.requests, db.requests[id := r2], db.allocations, b, r.DrawsOn(),
                  Charge(r2, r.DrawsOn()) - Charge(r, r.DrawsOn()), ChargeOf(db, r2) - ChargeOf(db, r));
  }

  lemma RevisionKeepsRequests(requests: seq<Request>, allocations: seq<Allocation>, id: nat, r2: Request)
    requires NoDoubleBooking(requests) && RequestStates(requests) && Covered(requests, allocations)
    requires id < |requests| && Revises(requests[id], r2)
    ensures NoDoubleBooking(requests[id := r2]) && RequestStates(requests[id := r2])
    ensures Covered(requests[id := r2], allocations)
  {
  }

  lemma RevisionKeepsInv(db: Db, id: nat, r2: Request, b: seq<Allocation>, approvals: seq<Approval>, e: AuditEntry)
    requires Inv(db) && id < |db.requests| && Revises(db.requests[id], r2)
    requires Shifted(db.allocations, b, r2.DrawsOn(), ChargeOf(db, r2) - ChargeOf(db, db.requests[id]))
    requires ApprovalRows(db.requests[id := r2], approvals)
    requires !e.ManualGrant? && !e.PeriodicAccrual?
    ensures Inv(db.(requests := db.requests[id := r2], allocations := b, approvals := approvals,
                    audit := db.audit + [e]))
  {
    var after := db.(requests := db.requests[id := r2], allocations := b, approvals := approvals);
    assert Inv(after) by {
      assert UsedDays(db.types, after.requests, b) by { RevisionKeepsUse(db, id, r2, b); }
      RevisionKeepsRequests(db.requests, db.allocations, id, r2);
      ShiftKeepsRest(after.(allocations := db.allocations), b, r2.DrawsOn(),
                     ChargeOf(db, r2) - ChargeOf(db, db.requests[id]));
    }
    NoteKeepsInv(after, e);
  }

  lemma DecisionKeepsApprovals(requests: seq<Request>, approvals: seq<Approval>, id: nat, r2: Request, a: Approval)
    requires ApprovalRows(requests, approvals) && id < |requests|
    requires requests[id].approver == None && r2.approver.Some? && a.request == id
    ensures ApprovalRows(requests[id := r2], approvals + [a])
  {
  }

  // The allocation a stored request draws on exists, so the `if alloc` tests succeed.
  lemma StoredRequestHasAllocation(db: Db, id: nat)
    requires Inv(db) && id < |db.requests|
    ensures FindAllocation(db.allocations, db.requests[id].DrawsOn()).Row?
  {
  }

  lemma UpdateStatusEffect(db: Db, id: nat, status: Status, approver: nat)
    requires Inv(db) && id < |db.requests| && status in {Approved, Rejected} && approver < |db.users|
    requires db.requests[id].status == Pending
    ensures var r2 := db.requests[id].(status := status, approver := Some(approver));
            var o := UpdateStatus(db, id, status, approver);
            && Revises(db.requests[id], r2)
            && o.Success?
            && Shifted(db.allocations, o.value.allocations, r2.DrawsOn(), ChargeOf(db, r2))
            && o.value == db.(requests := db.requests[id := r2], allocations := o.value.allocations,
                              approvals := db.approvals + [Approval(id, approver, status)],
                              audit := db.audit + [StatusUpdated(approver, id, status, r2.user)])
  {
    var r := db.requests[id];
    assert RequestState(r);
    StoredRequestHasAllocation(db, id);
    UseDaysShifts(db.allocations, r.DrawsOn(), r.total);
  }

  lemma UpdateStatusKeepsInv(db: Db, id: nat, status: Status, approver: nat)
    requires Inv(db)
    ensures Inv(Commit(db, UpdateStatus(db, id, status, approver)))
  {
    var o := UpdateStatus(db, id, status, approver);
    if o.Success? {
      UpdateStatusEffect(db, id, status, approver);
      var r2 := db.requests[id].(status := status, approver := Some(approver));
      assert ApprovalRows(o.value.requests, o.value.approvals) by {
        assert RequestState(db.requests[id]);
        DecisionKeepsApprovals(db.requests, db.approvals, id, r2, Approval(id, approver, status));
      }
      RevisionKeepsInv(db, id, r2, o.value.allocations, o.value.approvals,
                       StatusUpdated(approver, id, status, r2.user));
    }
  }

  // What an approved paid request took is still counted in its allocation.
  lemma ApprovedDaysAreUsed(db: Db, id: nat, i: nat)
    requires Inv(db) && id < |db.requests| && i < |db.allocations|
    requires db.requests[id].status == Approved && db.IsPaid(db.requests[id].typ)
    requires db.allocations[i].key == db.requests[id].DrawsOn()
    ensures db.requests[id].total <= db.allocations[i].usedDays
  {
    ChargeWithinSum(db.requests, id, db.allocations[i].key);
  }

  ghost predicate CanCancel(db: Db, id: nat, user: nat, today: Date) {
    && id < |db.requests| && db.requests[id].user == user && db.requests[id].status != Cancelled
    && !(db.requests[id].status == Approved && db.IsPaid(db.requests[id].typ) && db.requests[id].start <= today)
  }

  lemma CancelLeaveEffect(db: Db, id: nat, user: nat, today: Date)
    requires Inv(db) && CanCancel(db, id, user, today)
    ensures var r2 := db.requests[id].(status := Cancelled);
            var o := CancelLeave(db, id, user, today);
            && Revises(db.requests[id], r2)
            && o.Success?
            && Shifted(db.allocations, o.value.allocations, r2.DrawsOn(), -ChargeOf(db, db.requests[id]))
            && o.value == db.(requests := db.requests[id := r2], allocations := o.value.allocations,
                              audit := db.audit + [LeaveCancelled(user, id)])
  {
    var r := db.requests[id];
    assert RequestState(r);
    StoredRequestHasAllocation(db, id);
    if r.status == Approved && db.IsPaid(r.typ) {
      forall i | 0 <= i < |db.allocations| && db.allocations[i].key == r.DrawsOn()
        ensures r.total <= db.allocations[i].usedDays
      {
        ApprovedDaysAreUsed(db, id, i);
      }
      RestoreDaysShifts(db.allocations, r.DrawsOn(), r.total);
    }
  }

  lemma CancelLeaveKeepsInv(db: Db, id: nat, user: nat, today: Date)
    requires Inv(db)
    ensures Inv(Commit(db, CancelLeave(db, id, user, today)))
  {
    if CanCancel(db, id, user, today) {
      CancelLeaveEffect(db, id, user, today);
      var r2 := db.requests[id].(status := Cancelled);
      assert ApprovalRows(db.requests[id := r2], db.approvals);
      RevisionKeepsInv(db, id, r2, CancelLeave(db, id, user, today).value.allocations, db.approvals,
                       LeaveCancelled(user, id));
    }
  }
}
