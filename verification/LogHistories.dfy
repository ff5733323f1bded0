/** The audit log tells the life of every request. */
module LogHistories {
  import opened Wrappers
  import opened Calendar
  import opened Records
  import opened Ledger
  import opened LedgerInvariant
  import opened LedgerSteps
  import opened LedgerRuns
  import opened Lifecycle
  import opened Admission
  import opened AccrualRuns

  // The statuses one entry records for request id: none, or one.
  ghost function Told1(e: AuditEntry, id: nat): seq<Status> {
    match e
    case LeaveApplied(_, request, _, status) => if request == id then [status] else []
    case StatusUpdated(_, request, status, _) => if request == id then [status] else []
    case LeaveCancelled(_, request) => if request == id then [Cancelled] else []
    case _ => []
  }

  ghost function Told(audit: seq<AuditEntry>, id: nat): seq<Status> {
    if audit == [] then [] else Told(audit[..|audit| - 1], id) + Told1(audit[|audit| - 1], id)
  }

  // The entry names the owner of its request, and the days or the approver where it has them.
  ghost predicate Truthful(e: AuditEntry, requests: seq<Request>) {
    match e
    case LeaveApplied(user, id, total, status) =>
      id < |requests| && user == requests[id].user && total == requests[id].total
      && (status == Approved <==> requests[id].autoApproved)
    case StatusUpdated(user, id, _, target) =>
      id < |requests| && target == requests[id].user && requests[id].approver == Some(user)
    case LeaveCancelled(user, id) => id < |requests| && user == requests[id].user && requests[id].status == Cancelled
    case _ => true
  }

  ghost predicate TruthfulLog(audit: seq<AuditEntry>, requests: seq<Request>) {
    forall i :: 0 <= i < |audit| ==> Truthful(audit[i], requests)
  }

  lemma {:induction false} AccrualsTellNothing(a: seq<AuditEntry>, b: seq<AuditEntry>, today: Date, id: nat)
    requires AccruedOn(a, b, today)
    ensures Told(b, id) == Told(a, id)
    decreases |b|
  {
    if |a| < |b| {
      AccrualsTellNothing(a, b[..|b| - 1], today, id);
    } else {
      assert a == b;
    }
  }

  lemma ToldAppend(audit: seq<AuditEntry>, e: AuditEntry, id: nat)
    ensures Told(audit + [e], id) == Told(audit, id) + Told1(e, id)
  {
  }

  // --- One step ---------------------------------------------------------------

  // From a to b, request id is as before and the log says nothing of it, or it is filed or
  // changes status and the log says so.
  ghost predicate Tells(a: Db, b: Db, id: nat) {
    if id >= |b.requests| then Told(b.audit, id) == Told(a.audit, id)
    else if id < |a.requests| && a.requests[id].status == b.requests[id].status then Told(b.audit, id) == Told(a.audit, id)
    else Told(b.audit, id) == Told(a.audit, id) + [b.requests[id].status]
  }

  // The requests keep what the log has told about them.
  ghost predicate KeepsTold(a: seq<Request>, b: seq<Request>) {
    && |a| <= |b|
    && forall i :: 0 <= i < |a| ==>
         && b[i].user == a[i].user && b[i].total == a[i].total && b[i].autoApproved == a[i].autoApproved
         && (a[i].approver.Some? ==> b[i].approver == a[i].approver)
         && (a[i].status == Cancelled ==> b[i].status == Cancelled)
  }

  lemma StillTruthful(audit: seq<AuditEntry>, a: seq<Request>, b: seq<Request>)
    requires TruthfulLog(audit, a) && KeepsTold(a, b)
    ensures TruthfulLog(audit, b)
  {
    forall i | 0 <= i < |audit|
      ensures Truthful(audit[i], b)
    {
      assert Truthful(audit[i], a);
    }
  }

  lemma RequestEventTells(db: Db, d: Db, e: AuditEntry, id: nat)
    requires d.audit == db.audit + [e] && KeepsTold(db.requests, d.requests) && TruthfulLog(db.audit, db.requests)
    requires Truthful(e, d.requests)
    requires if id >= |d.requests| || (id < |db.requests| && db.requests[id].status == d.requests[id].status)
             then Told1(e, id) == [] else Told1(e, id) == [d.requests[id].status]
    ensures Tells(db, d, id) && TruthfulLog(d.audit, d.requests)
  {
    ToldAppend(db.audit, e, id);
    StillTruthful(db.audit, db.requests, d.requests);
  }

  lemma ApplyTells(db: Db, user: nat, p: LeavePayload, id: nat)
    requires Inv(db) && TruthfulLog(db.audit, db.requests)
    ensures var d := Commit(db, ApplyLeave(db, user, p));
            Tells(db, d, id) && TruthfulLog(d.audit, d.requests)
  {
    CheckIsAdmission(db, user, p);
    if Admissible(db, user, p) {
      var total := DaysCharged(db, p);
      assert UniqueKeys(OpenYear(db, user, Year(p.start))) by { OpenTypesKeepsInv(db, user, Year(p.start), |db.types|); }
      FileRequestCharges(db, user, p, total);
      RequestEventTells(db, ApplyLeave(db, user, p).value,
                        LeaveApplied(user, |db.requests|, total, NewRequest(db, user, p, total).status), id);
    }
  }

  lemma DecisionTells(db: Db, request: nat, status: Status, approver: nat, id: nat)
    requires Inv(db) && TruthfulLog(db.audit, db.requests)
    ensures var d := Commit(db, UpdateStatus(db, request, status, approver));
            Tells(db, d, id) && TruthfulLog(d.audit, d.requests)
  {
    var o := UpdateStatus(db, request, status, approver);
    if o.Success? {
      UpdateStatusEffect(db, request, status, approver);
      assert RequestState(db.requests[request]);
      RequestEventTells(db, o.value, StatusUpdated(approver, request, status, db.requests[request].user), id);
    }
  }

  lemma CancellationTells(db: Db, request: nat, user: nat, today: Date, id: nat)
    requires Inv(db) && TruthfulLog(db.audit, db.requests)
    ensures var d := Commit(db, CancelLeave(db, request, user, today));
            Tells(db, d, id) && TruthfulLog(d.audit, d.requests)
  {
    var o := CancelLeave(db, request, user, today);
    if o.Success? {
      CancelLeaveEffect(db, request, user, today);
      RequestEventTells(db, o.value, LeaveCancelled(user, request), id);
    }
  }

  lemma RunTells(db: Db, users: seq<nat>, policies: seq<nat>, today: Date, id: nat)
    requires TruthfulLog(db.audit, db.requests)
    ensures var d := Commit(db, RunAccruals(db, users, policies, today));
            Tells(db, d, id) && TruthfulLog(d.audit, d.requests)
  {
    TakeTurnsOnlyAccrue(db, Turns(users, policies), today);
    RunAppendsAccruals(db, Turns(users, policies), today);
    AccrualsTellNothing(db.audit, Commit(db, RunAccruals(db, users, policies, today)).audit, today, id);
  }

  // Every other event adds at most one entry, about something else.
  lemma OtherEventTells(db: Db, ev: Event, id: nat)
    requires TruthfulLog(db.audit, db.requests)
    requires !ev.LeaveRequested? && !ev.StatusSet? && !ev.LeaveWithdrawn? && !ev.AccrualRun?
    ensures Tells(db, Step(db, ev), id) && TruthfulLog(Step(db, ev).audit, Step(db, ev).requests)
  {
    var d := Step(db, ev);
    assert d.requests == db.requests;
    assert d.audit == db.audit
           || (|d.audit| == |db.audit| + 1 && d.audit == db.audit + [d.audit[|db.audit|]]
               && Told1(d.audit[|db.audit|], id) == [] && Truthful(d.audit[|db.audit|], d.requests));
    if d.audit != db.audit {
      ToldAppend(db.audit, d.audit[|db.audit|], id);
    }
  }

  lemma StepTells(db: Db, ev: Event, id: nat)
    requires Inv(db) && TruthfulLog(db.audit, db.requests)
    ensures Tells(db, Step(db, ev), id) && TruthfulLog(Step(db, ev).audit, Step(db, ev).requests)
  {
    if ev.LeaveRequested? {
      ApplyTells(db, ev.user, ev.payload, id);
    } else if ev.StatusSet? {
      DecisionTells(db, ev.request, ev.status, ev.approver, id);
    } else if ev.LeaveWithdrawn? {
      CancellationTells(db, ev.request, ev.user, ev.today, id);
    } else if ev.AccrualRun? {
      RunTells(db, ev.users, ev.policies, ev.today, id);
    } else {
      OtherEventTells(db, ev, id);
    }
  }

  // --- Whole runs -------------------------------------------------------------

  // In every reachable state the log, read back, is the history of every request: the status
  // it was filed with, then each decision and cancellation, once and in order; and each entry
  // names its owner, its days and its approver.
  lemma {:induction false} LogTellsHistories(db: Db, evs: seq<Event>, id: nat)
    requires Initial(db)
    ensures Told(Run(db, evs).audit, id) == History(db, evs, id)
    ensures TruthfulLog(Run(db, evs).audit, Run(db, evs).requests)
  {
    if evs != [] {
      var before, ev := evs[..|evs| - 1], evs[|evs| - 1];
      LogTellsHistories(db, before, id);
      assert Inv(Run(db, before)) by { ReachableInv(db, before); }
      StepTells(Run(db, before), ev, id);
      EveryHistoryIsLegal(db, before, id);
      StepEvolvesRequests(Run(db, before), ev);
    }
  }
}
