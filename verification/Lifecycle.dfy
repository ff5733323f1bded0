/** What a whole run can and cannot do to a request and to an allocation. */
module Lifecycle {
  import opened Wrappers
  import opened Calendar
  import opened Records
  import opened Ledger
  import opened LedgerInvariant
  import opened LedgerSteps
  import opened LedgerRuns

  // --- One step seen from a request -------------------------------------------

  ghost predicate Decided(r: Request, r2: Request) {
    && r.status == Pending && r2.status in {Approved, Rejected} && r2.approver.Some?
    && r2 == r.(status := r2.status, approver := r2.approver)
  }

  ghost predicate Withdrawn(r: Request, r2: Request) {
    r.status != Cancelled && r2 == r.(status := Cancelled)
  }

  ghost predicate Filed(r: Request) {
    r.approver == None && r.status == if r.autoApproved then Approved else Pending
  }

  ghost predicate RequestsEvolve(a: seq<Request>, b: seq<Request>) {
    && |a| <= |b|
    && (forall i :: 0 <= i < |a| ==> b[i] == a[i] || Decided(a[i], b[i]) || Withdrawn(a[i], b[i]))
    && (forall i :: |a| <= i < |b| ==> Filed(b[i]))
  }

  lemma AccrueStepOnlyAccrues(db: Db, user: nat, designation: Option<nat>, pid: nat, p: Policy, today: Date)
    ensures var d := Commit(db, AccrueStep(db, user, designation, pid, p, today));
            d == db.(allocations := d.allocations, audit := d.audit)
  {
  }

  lemma {:induction false} TakeTurnsOnlyAccrue(db: Db, ts: seq<Turn>, today: Date)
    ensures var d := Commit(db, TakeTurns(db, ts, today));
            d == db.(allocations := d.allocations, audit := d.audit)
  {
    if ts != [] {
      TakeTurnsOnlyAccrue(db, ts[..|ts| - 1], today);
      var before := TakeTurns(db, ts[..|ts| - 1], today);
      var t := ts[|ts| - 1];
      if before.Success? && t.user < |before.value.users| && t.policy < |before.value.policies| {
        AccrueStepOnlyAccrues(before.value, t.user, before.value.users[t.user].designation, t.policy,
                              before.value.policies[t.policy], today);
      }
    }
  }

  lemma StepEvolvesRequests(db: Db, ev: Event)
    ensures RequestsEvolve(db.requests, Step(db, ev).requests)
  {
    match ev
    case AccrualTurn(user, designation, pid, policy, today) =>
      AccrueStepOnlyAccrues(db, user, designation, pid, policy, today);
    case AccrualRun(users, policies, today) => TakeTurnsOnlyAccrue(db, Turns(users, policies), today);
    case LeaveRequested(user, payload) => ApplyEvolvesRequests(db, user, payload);
    case _ =>
  }

  lemma ApplyEvolvesRequests(db: Db, user: nat, p: LeavePayload)
    ensures RequestsEvolve(db.requests, Commit(db, ApplyLeave(db, user, p)).requests)
  {
  }

  // --- The life of a request --------------------------------------------------

  // A history after the request is seen with the given status.
  ghost function Noted(h: seq<Status>, status: Status): seq<Status> {
    if h == [] || h[|h| - 1] != status then h + [status] else h
  }

  // The statuses request i goes through, repetitions collapsed.
  ghost function History(db: Db, evs: seq<Event>, i: nat): seq<Status> {
    var h := if evs == [] then [] else History(db, evs[..|evs| - 1], i);
    var now := Run(db, evs);
    if i < |now.requests| then Noted(h, now.requests[i].status) else h
  }

  ghost predicate LegalHistory(h: seq<Status>) {
    || h == [] || h == [Pending] || h == [Approved]
    || h == [Pending, Approved] || h == [Pending, Rejected]
    || h == [Pending, Cancelled] || h == [Approved, Cancelled]
    || h == [Pending, Approved, Cancelled] || h == [Pending, Rejected, Cancelled]
  }

  // h is the legal history of a request that is now as r says.
  ghost predicate HistoryOf(h: seq<Status>, r: Request) {
    && h != [] && LegalHistory(h)
    && h[|h| - 1] == r.status
    && (h[0] == Approved <==> r.autoApproved)
  }

  lemma HistoryEvolves(h: seq<Status>, r: Request, r2: Request)
    requires HistoryOf(h, r) && (r2 == r || Decided(r, r2) || Withdrawn(r, r2))
    ensures HistoryOf(Noted(h, r2.status), r2)
  {
  }

  lemma HistoryStarts(r: Request)
    requires Filed(r)
    ensures HistoryOf(Noted([], r.status), r)
  {
  }

  // A request is filed PENDING or APPROVED, decided at most once and only while PENDING,
  // and CANCELLED is terminal; so it changes status at most twice.
  lemma {:induction false} EveryHistoryIsLegal(db: Db, evs: seq<Event>, i: nat)
    requires |db.requests| <= i
    ensures LegalHistory(History(db, evs, i))
    ensures var now := Run(db, evs);
            var h := History(db, evs, i);
            && (i < |now.requests| <==> h != [])
            && (h != [] ==> h[|h| - 1] == now.requests[i].status
                            && (h[0] == Approved <==> now.requests[i].autoApproved))
  {
    if evs != [] {
      var before := evs[..|evs| - 1];
      EveryHistoryIsLegal(db, before, i);
      StepEvolvesRequests(Run(db, before), evs[|evs| - 1]);
      var a, b := Run(db, before).requests, Run(db, evs).requests;
      if i < |a| {
        HistoryEvolves(History(db, before, i), a[i], b[i]);
      } else if i < |b| {
        HistoryStarts(b[i]);
      }
    }
  }

  // --- Decisions --------------------------------------------------------------

  // The event is a decision on request id that takes effect.
  ghost predicate Decides(db: Db, ev: Event, id: nat) {
    ev.StatusSet? && ev.request == id && Perform(db, ev).Success?
  }

  // How many decisions on request id took effect during the run.
  ghost function Decisions(db: Db, evs: seq<Event>, id: nat): nat {
    if evs == [] then 0
    else
      Decisions(db, evs[..|evs| - 1], id)
      + if Decides(Run(db, evs[..|evs| - 1]), evs[|evs| - 1], id) then 1 else 0
  }

  lemma ApprovalsAppend(approvals: seq<Approval>, a: Approval, id: nat)
    ensures ApprovalsOf(approvals + [a], id) == ApprovalsOf(approvals, id) + if a.request == id then 1 else 0
  {
  }

  lemma OthersKeepApprovals(db: Db, ev: Event)
    requires !ev.StatusSet?
    ensures Step(db, ev).approvals == db.approvals
  {
    match ev
    case AccrualTurn(user, designation, pid, policy, today) =>
      AccrueStepOnlyAccrues(db, user, designation, pid, policy, today);
    case AccrualRun(users, policies, today) => TakeTurnsOnlyAccrue(db, Turns(users, policies), today);
    case _ =>
  }

  lemma DecisionAddsApproval(db: Db, id: nat, status: Status, approver: nat)
    ensures Commit(db, UpdateStatus(db, id, status, approver)).approvals ==
            if UpdateStatus(db, id, status, approver).Success?
            then db.approvals + [Approval(id, approver, status)] else db.approvals
  {
  }

  lemma StepApprovals(db: Db, ev: Event, id: nat)
    ensures ApprovalsOf(Step(db, ev).approvals, id) ==
            ApprovalsOf(db.approvals, id) + if Decides(db, ev, id) then 1 else 0
  {
    if ev.StatusSet? {
      DecisionAddsApproval(db, ev.request, ev.status, ev.approver);
      ApprovalsAppend(db.approvals, Approval(ev.request, ev.approver, ev.status), id);
    } else {
      OthersKeepApprovals(db, ev);
    }
  }

  lemma {:induction false} RunApprovals(db: Db, evs: seq<Event>, id: nat)
    ensures ApprovalsOf(Run(db, evs).approvals, id) == ApprovalsOf(db.approvals, id) + Decisions(db, evs, id)
  {
    if evs != [] {
      RunApprovals(db, evs[..|evs| - 1], id);
      StepApprovals(Run(db, evs[..|evs| - 1]), evs[|evs| - 1], id);
    }
  }

  // The approval rows of a request number the decisions on it that took effect: one when a
  // manager decided it, and none when it was approved automatically or is still pending.
  lemma ApprovalRowsMatchDecisions(db: Db, evs: seq<Event>, id: nat)
    requires Initial(db) && id < |Run(db, evs).requests|
    ensures var r := Run(db, evs).requests[id];
            && ApprovalsOf(Run(db, evs).approvals, id) == Decisions(db, evs, id)
            && Decisions(db, evs, id) == (if r.approver.Some? then 1 else 0)
            && (r.autoApproved || r.status == Pending ==> Decisions(db, evs, id) == 0)
            && (r.status == Rejected || (r.status == Approved && !r.autoApproved) ==> Decisions(db, evs, id) == 1)
  {
    RunApprovals(db, evs, id);
    ReachableInv(db, evs);
    assert RequestState(Run(db, evs).requests[id]);
  }

  // --- Started leave ----------------------------------------------------------

  ghost predicate Started(db: Db, r: Request, t: Date) {
    r.status == Approved && db.IsPaid(r.typ) && r.start <= t
  }

  // No cancellation in the run reads a clock earlier than t.
  ghost predicate ClockFrom(evs: seq<Event>, t: Date) {
    forall k :: 0 <= k < |evs| && evs[k].LeaveWithdrawn? ==> t <= evs[k].today
  }

  lemma StepKeepsTypes(db: Db, ev: Event)
    ensures Step(db, ev).types == db.types
  {
    match ev
    case AccrualTurn(user, designation, pid, policy, today) =>
      AccrueStepOnlyAccrues(db, user, designation, pid, policy, today);
    case AccrualRun(users, policies, today) => TakeTurnsOnlyAccrue(db, Turns(users, policies), today);
    case _ =>
  }

  lemma StepKeepsStarted(db: Db, ev: Event, i: nat, t: Date)
    requires i < |db.requests| && Started(db, db.requests[i], t)
    requires ev.LeaveWithdrawn? ==> t <= ev.today
    ensures i < |Step(db, ev).requests| && Step(db, ev).requests[i] == db.requests[i]
    ensures Step(db, ev).types == db.types
  {
    StepEvolvesRequests(db, ev);
    StepKeepsTypes(db, ev);
    match ev
    case LeaveWithdrawn(request, user, today) =>
    case StatusSet(request, status, approver) =>
    case AccrualTurn(user, designation, pid, policy, today) =>
      AccrueStepOnlyAccrues(db, user, designation, pid, policy, today);
    case AccrualRun(users, policies, today) => TakeTurnsOnlyAccrue(db, Turns(users, policies), today);
    case LeaveRequested(user, payload) => ApplyKeepsRequests(db, user, payload);
    case _ =>
  }

  lemma ApplyKeepsRequests(db: Db, user: nat, p: LeavePayload)
    ensures db.requests <= Commit(db, ApplyLeave(db, user, p)).requests
  {
  }

  // Approved paid leave whose start date has arrived stays approved in every later state.
  lemma {:induction false} StartedLeaveIsPermanent(db: Db, evs: seq<Event>, i: nat, t: Date)
    requires i < |db.requests| && Started(db, db.requests[i], t) && ClockFrom(evs, t)
    ensures i < |Run(db, evs).requests| && Run(db, evs).requests[i] == db.requests[i]
    ensures Run(db, evs).types == db.types
  {
    if evs != [] {
      StartedLeaveIsPermanent(db, evs[..|evs| - 1], i, t);
      StepKeepsStarted(Run(db, evs[..|evs| - 1]), evs[|evs| - 1], i, t);
    }
  }

  // The days of the requests of k that are approved and have started by t.
  ghost function StartedDays(requests: seq<Request>, k: Key, t: Date): int {
    if requests == [] then 0
    else
      var r := requests[|requests| - 1];
      StartedDays(requests[..|requests| - 1], k, t) + if r.start <= t then Charge(r, k) else 0
  }

  lemma {:induction false} KeptStartedDays(a: seq<Request>, b: seq<Request>, k: Key, t: Date)
    requires |a| <= |b| && RequestStates(b)
    requires forall i :: 0 <= i < |a| && a[i].start <= t && Charge(a[i], k) != 0 ==> b[i] == a[i]
    ensures StartedDays(a, k, t) <= ApprovedDays(b, k)
    decreases |b|
  {
    if |a| < |b| {
      KeptStartedDays(a, b[..|b| - 1], k, t);
      assert RequestState(b[|b| - 1]);
    } else if a != [] {
      KeptStartedDays(a[..|a| - 1], b[..|b| - 1], k, t);
      assert RequestState(b[|b| - 1]);
    }
  }

  // `used_days` never falls below the days already started.
  lemma UsedDaysCoverStarted(db: Db, evs: seq<Event>, k: Key, t: Date, i: nat)
    requires Inv(db) && db.IsPaid(k.typ) && ClockFrom(evs, t)
    requires i < |Run(db, evs).allocations| && Run(db, evs).allocations[i].key == k
    ensures StartedDays(db.requests, k, t) <= Run(db, evs).allocations[i].usedDays
  {
    var now := Run(db, evs);
    RunKeepsInv(db, evs);
    RunKeepsTypes(db, evs);
    forall j | 0 <= j < |db.requests| && db.requests[j].start <= t && Charge(db.requests[j], k) != 0
      ensures j < |now.requests| && now.requests[j] == db.requests[j]
    {
      StartedLeaveIsPermanent(db, evs, j, t);
    }
    RunGrowsRequests(db, evs);
    KeptStartedDays(db.requests, now.requests, k, t);
  }

  lemma {:induction false} RunKeepsTypes(db: Db, evs: seq<Event>)
    ensures Run(db, evs).types == db.types
  {
    if evs != [] {
      RunKeepsTypes(db, evs[..|evs| - 1]);
      StepKeepsTypes(Run(db, evs[..|evs| - 1]), evs[|evs| - 1]);
    }
  }

  lemma {:induction false} RunGrowsRequests(db: Db, evs: seq<Event>)
    ensures |db.requests| <= |Run(db, evs).requests|
  {
    if evs != [] {
      RunGrowsRequests(db, evs[..|evs| - 1]);
      StepEvolvesRequests(Run(db, evs[..|evs| - 1]), evs[|evs| - 1]);
    }
  }

  // --- Undoing an approval ----------------------------------------------------

  // What an approved request was charged, seen from the tables after the approval.
  lemma ApprovalShifts(db: Db, id: nat, approver: nat)
    requires Inv(db) && id < |db.requests| && approver < |db.users| && db.requests[id].status == Pending
    ensures var approved := Commit(db, UpdateStatus(db, id, Approved, approver));
            && id < |approved.requests|
            && var r2 := approved.requests[id];
               && r2.status == Approved && r2.user == db.requests[id].user && r2.start == db.requests[id].start
               && Shifted(db.allocations, approved.allocations, r2.DrawsOn(), ChargeOf(approved, r2))
  {
    UpdateStatusEffect(db, id, Approved, approver);
  }

  // Cancelling takes back exactly what charging the request had added to `original`.
  lemma CancellationRestores(db: Db, id: nat, today: Date, original: seq<Allocation>)
    requires Inv(db) && id < |db.requests| && today < db.requests[id].start
    requires db.requests[id].status != Cancelled
    requires Shifted(original, db.allocations, db.requests[id].DrawsOn(), ChargeOf(db, db.requests[id]))
    ensures var r := db.requests[id];
            var cancelled := Commit(db, CancelLeave(db, id, r.user, today));
            && id < |cancelled.requests| && cancelled.requests[id].status == Cancelled
            && cancelled.allocations == original
  {
    var r := db.requests[id];
    CancelLeaveEffect(db, id, r.user, today);
    var cancelled := Commit(db, CancelLeave(db, id, r.user, today));
    ShiftBack(original, db.allocations, cancelled.allocations, r.DrawsOn(), ChargeOf(db, r));
  }

  // Approving a pending request and cancelling it before it starts leaves every
  // allocation as it was.
  lemma CancelUndoesApproval(db: Db, id: nat, approver: nat, today: Date)
    requires Inv(db) && id < |db.requests| && approver < |db.users|
    requires db.requests[id].status == Pending && today < db.requests[id].start
    ensures var approved := Commit(db, UpdateStatus(db, id, Approved, approver));
            var cancelled := Commit(approved, CancelLeave(approved, id, db.requests[id].user, today));
            && id < |approved.requests| && approved.requests[id].status == Approved
            && id < |cancelled.requests| && cancelled.requests[id].status == Cancelled
            && cancelled.allocations == db.allocations
  {
    var approved := Commit(db, UpdateStatus(db, id, Approved, approver));
    ApprovalShifts(db, id, approver);
    UpdateStatusKeepsInv(db, id, Approved, approver);
    CancellationRestores(approved, id, today, db.allocations);
  }

  lemma ShiftBack(a: seq<Allocation>, b: seq<Allocation>, c: seq<Allocation>, k: Key, delta: int)
    requires Shifted(a, b, k, delta) && Shifted(b, c, k, -delta)
    ensures c == a
  {
  }
}
