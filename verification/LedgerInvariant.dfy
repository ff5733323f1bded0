/** What every reachable state of the leave tables satisfies, and why each operation keeps it. */
module LedgerInvariant {
  import opened Wrappers
  import opened Calendar
  import opened Records
  import opened Repository
  import opened Ledger

  // --- The invariant ----------------------------------------------------------

  // Foreign keys.
  ghost predicate References(db: Db) {
    && (forall i :: 0 <= i < |db.allocations| ==>
          db.allocations[i].key.user < |db.users| && db.allocations[i].key.typ < |db.types|)
    && (forall i :: 0 <= i < |db.requests| ==> db.requests[i].typ < |db.types|)
    && (forall i :: 0 <= i < |db.policies| ==> db.policies[i].typ < |db.types| && db.policies[i].rate > 0)
  }

  // At most one allocation for a user, leave type and year.
  ghost predicate UniqueKeys(allocations: seq<Allocation>) {
    forall i, j :: 0 <= i < j < |allocations| ==> allocations[i].key != allocations[j].key
  }

  // Every request has an allocation for the year it starts in.
  ghost predicate Covered(requests: seq<Request>, allocations: seq<Allocation>) {
    forall r :: 0 <= r < |requests| ==> HasKey(allocations, requests[r].DrawsOn())
  }

  ghost function Charge(r: Request, k: Key): int {
    if r.status == Approved && r.DrawsOn() == k then r.total else 0
  }

  // The sum of `total_days` over the APPROVED requests that draw on k.
  ghost function ApprovedDays(requests: seq<Request>, k: Key): int {
    if requests == [] then 0
    else ApprovedDays(requests[..|requests| - 1], k) + Charge(requests[|requests| - 1], k)
  }

  ghost function ExpectedUse(types: seq<LeaveType>, requests: seq<Request>, k: Key): int {
    if k.typ < |types| && types[k.typ].name != Unpaid then ApprovedDays(requests, k) else 0
  }

  // Conservation: `used_days` is the approved total of its user, paid leave type and year.
  ghost predicate UsedDays(types: seq<LeaveType>, requests: seq<Request>, allocations: seq<Allocation>) {
    forall i :: 0 <= i < |allocations| ==>
      allocations[i].usedDays == ExpectedUse(types, requests, allocations[i].key)
      && allocations[i].compOff == 0
  }

  ghost predicate Disjoint(a: Request, b: Request) {
    a.end < b.start || b.end < a.start
  }

  ghost predicate NoDoubleBooking(requests: seq<Request>) {
    forall i, j ::
      (0 <= i < j < |requests| && requests[i].user == requests[j].user
       && requests[i].Live() && requests[j].Live()) ==> Disjoint(requests[i], requests[j])
  }

  ghost predicate RequestState(r: Request) {
    && r.start <= r.end && 0 < r.total
    && (r.autoApproved ==> r.approver == None && r.status in {Approved, Cancelled})
    && (r.status == Pending ==> r.approver == None)
    && (r.status in {Approved, Rejected} ==> r.autoApproved || r.approver.Some?)
  }

  ghost predicate RequestStates(requests: seq<Request>) {
    forall i :: 0 <= i < |requests| ==> RequestState(requests[i])
  }

  ghost function ApprovalsOf(approvals: seq<Approval>, id: nat): nat {
    if approvals == [] then 0
    else ApprovalsOf(approvals[..|approvals| - 1], id) + if approvals[|approvals| - 1].request == id then 1 else 0
  }

  // One approval row exactly for the requests a manager acted on, none for the others.
  ghost predicate ApprovalRows(requests: seq<Request>, approvals: seq<Approval>) {
    && (forall i :: 0 <= i < |requests| ==>
          ApprovalsOf(approvals, i) == if requests[i].approver.Some? then 1 else 0)
    && (forall a :: 0 <= a < |approvals| ==> approvals[a].request < |requests|)
  }

  // At most one active policy for a leave type and designation (or none).
  ghost predicate UniquePolicies(policies: seq<Policy>) {
    forall i, j ::
      (0 <= i < j < |policies| && policies[i].active && policies[j].active
       && policies[i].typ == policies[j].typ) ==> policies[i].designation != policies[j].designation
  }

  // The balance of allocation i after one audit entry; None when the entry's previous value
  // (for a grant, the new value less the granted days) is not the balance before it.
  ghost function Replay1(e: AuditEntry, i: nat, days: Option<int>): Option<int> {
    if !e.Changes(i) then days
    else
      var previous := if e.ManualGrant? then e.newAllocated - e.granted else e.previous;
      if days == Some(previous) then Some(e.newAllocated) else None
  }

  ghost function Replay(audit: seq<AuditEntry>, i: nat, days: Option<int>): Option<int> {
    if audit == [] then days
    else Replay1(audit[|audit| - 1], i, Replay(audit[..|audit| - 1], i, days))
  }

  // An allocation opens at the default quota of its type, or at zero when a grant or an
  // accrual opens it; from there its audit entries chain up to its current value.
  ghost predicate Accounted(types: seq<LeaveType>, a: Allocation, i: nat, audit: seq<AuditEntry>) {
    || Replay(audit, i, Some(0)) == Some(a.allocatedDays)
    || (a.key.typ < |types| &&
        Replay(audit, i, Some(types[a.key.typ].defaultQuota)) == Some(a.allocatedDays))
  }

  ghost predicate RefersTo(audit: seq<AuditEntry>, n: nat) {
    forall e :: 0 <= e < |audit| && (audit[e].ManualGrant? || audit[e].PeriodicAccrual?) ==>
      audit[e].allocation < n
  }

  ghost predicate FaithfulAudit(types: seq<LeaveType>, allocations: seq<Allocation>, audit: seq<AuditEntry>) {
    && RefersTo(audit, |allocations|)
    && forall i :: 0 <= i < |allocations| ==> Accounted(types, allocations[i], i, audit)
  }

  // The accrual entries of allocation i, oldest first.
  ghost function AccrualsOf(audit: seq<AuditEntry>, i: nat): (h: seq<AuditEntry>)
    ensures forall j :: 0 <= j < |h| ==> h[j].PeriodicAccrual?
  {
    if audit == [] then []
    else
      var h := AccrualsOf(audit[..|audit| - 1], i);
      var e := audit[|audit| - 1];
      if e.PeriodicAccrual? && e.allocation == i then h + [e] else h
  }

  // The index, within a year, of the accrual period a month belongs to.
  ghost function Period(f: Frequency, month: int): int {
    match f
    case Monthly => month - 1
    case Quarterly => (month - 1) / 3
    case HalfYearly => (month - 1) / 6
    case Yearly => 0
    case Manual => 0
  }

  ghost predicate LaterPeriod(f: Frequency, a: Date, b: Date) {
    Period(f, Month(a)) < Period(f, Month(b))
  }

  // The accruals of an allocation all fall in its own year, each in a later period (of the
  // frequency it was made under) than the one before, and the last is `last_accrual_date`.
  ghost predicate AccrualHistory(h: seq<AuditEntry>, a: Allocation)
    requires forall j :: 0 <= j < |h| ==> h[j].PeriodicAccrual?
  {
    && a.lastAccrual == (if h == [] then None else Some(h[|h| - 1].date))
    && (forall j :: 0 <= j < |h| ==> Year(h[j].date) == a.key.year)
    && (forall j :: 0 < j < |h| ==> LaterPeriod(h[j].frequency, h[j - 1].date, h[j].date))
  }

  ghost predicate AccrualHistories(allocations: seq<Allocation>, audit: seq<AuditEntry>) {
    forall i :: 0 <= i < |allocations| ==> AccrualHistory(AccrualsOf(audit, i), allocations[i])
  }

  ghost predicate Inv(db: Db) {
    && References(db)
    && UniqueKeys(db.allocations)
    && Covered(db.requests, db.allocations)
    && UsedDays(db.types, db.requests, db.allocations)
    && NoDoubleBooking(db.requests)
    && RequestStates(db.requests)
    && ApprovalRows(db.requests, db.approvals)
    && UniquePolicies(db.policies)
    && FaithfulAudit(db.types, db.allocations, db.audit)
    && AccrualHistories(db.allocations, db.audit)
  }

  // Users, leave types, holidays and seeded policies, and nothing else yet.
  ghost predicate Initial(db: Db) {
    && db.requests == [] && db.allocations == [] && db.approvals == [] && db.audit == []
    && References(db) && UniquePolicies(db.policies)
  }

  lemma InitialInv(db: Db)
    requires Initial(db)
    ensures Inv(db)
  {
  }

  // --- Sums and replays -------------------------------------------------------

  lemma {:induction false} ApprovedDaysUpdate(requests: seq<Request>, i: nat, r: Request, k: Key)
    requires i < |requests|
    ensures ApprovedDays(requests[i := r], k) ==
            ApprovedDays(requests, k) - Charge(requests[i], k) + Charge(r, k)
  {
    var last := |requests| - 1;
    if i < last {
      ApprovedDaysUpdate(requests[..last], i, r, k);
      assert requests[i := r][..last] == requests[..last][i := r];
    } else {
      assert requests[i := r][..last] == requests[..last];
    }
  }

  lemma ApprovedDaysAppend(requests: seq<Request>, r: Request, k: Key)
    ensures ApprovedDays(requests + [r], k) == ApprovedDays(requests, k) + Charge(r, k)
  {
  }

  // A request contributes at most the whole sum.
  lemma {:induction false} ChargeWithinSum(requests: seq<Request>, i: nat, k: Key)
    requires i < |requests| && RequestStates(requests)
    ensures 0 <= Charge(requests[i], k) <= ApprovedDays(requests, k)
  {
    SumNonNegative(requests[..|requests| - 1], k);
    if i < |requests| - 1 {
      ChargeWithinSum(requests[..|requests| - 1], i, k);
    }
  }

  lemma {:induction false} SumNonNegative(requests: seq<Request>, k: Key)
    requires RequestStates(requests)
    ensures 0 <= ApprovedDays(requests, k)
  {
    if requests != [] {
      SumNonNegative(requests[..|requests| - 1], k);
    }
  }

  lemma {:induction false} NothingDrawn(requests: seq<Request>, k: Key)
    requires forall r :: 0 <= r < |requests| ==> requests[r].DrawsOn() != k
    ensures ApprovedDays(requests, k) == 0
  {
    if requests != [] {
      NothingDrawn(requests[..|requests| - 1], k);
    }
  }

  lemma AccrualsAppend(audit: seq<AuditEntry>, e: AuditEntry, i: nat)
    ensures AccrualsOf(audit + [e], i) ==
            AccrualsOf(audit, i) + if e.PeriodicAccrual? && e.allocation == i then [e] else []
  {
  }

  // Nothing has been recorded about an allocation that does not exist yet.
  lemma {:induction false} NothingRecorded(audit: seq<AuditEntry>, i: nat, days: Option<int>)
    requires RefersTo(audit, i)
    ensures Replay(audit, i, days) == days && AccrualsOf(audit, i) == []
  {
    if audit != [] {
      NothingRecorded(audit[..|audit| - 1], i, days);
    }
  }

  // --- Primitive changes ------------------------------------------------------

  // The rows keep their keys; new rows may follow.
  ghost predicate KeepsKeys(a: seq<Allocation>, b: seq<Allocation>) {
    |a| <= |b| && forall i :: 0 <= i < |a| ==> b[i].key == a[i].key
  }

  lemma KeptKeysCover(requests: seq<Request>, a: seq<Allocation>, b: seq<Allocation>)
    requires Covered(requests, a) && KeepsKeys(a, b)
    ensures Covered(requests, b)
  {
  }

  ghost predicate OpensAt(types: seq<LeaveType>, k: Key, days: int) {
    k.typ < |types| && (days == 0 || days == types[k.typ].defaultQuota)
  }

  lemma OpenKeepsAudit(db: Db, k: Key, days: int)
    requires FaithfulAudit(db.types, db.allocations, db.audit) && AccrualHistories(db.allocations, db.audit)
    requires OpensAt(db.types, k, days)
    ensures FaithfulAudit(db.types, db.allocations + [Fresh(k, days)], db.audit)
    ensures AccrualHistories(db.allocations + [Fresh(k, days)], db.audit)
  {
    NothingRecorded(db.audit, |db.allocations|, Some(days));
  }

  lemma OpenKeepsUse(db: Db, k: Key, days: int)
    requires Covered(db.requests, db.allocations) && UsedDays(db.types, db.requests, db.allocations)
    requires !HasKey(db.allocations, k)
    ensures Covered(db.requests, db.allocations + [Fresh(k, days)])
    ensures UsedDays(db.types, db.requests, db.allocations + [Fresh(k, days)])
  {
    KeptKeysCover(db.requests, db.allocations, db.allocations + [Fresh(k, days)]);
    NothingDrawn(db.requests, k);
  }

  // Opening an allocation that no request draws on.
  lemma OpenKeepsInv(db: Db, k: Key, days: int)
    requires Inv(db) && !HasKey(db.allocations, k)
    requires k.user < |db.users| && OpensAt(db.types, k, days)
    ensures Inv(db.(allocations := db.allocations + [Fresh(k, days)]))
  {
    OpenKeepsUse(db, k, days);
    OpenKeepsAudit(db, k, days);
  }
}
