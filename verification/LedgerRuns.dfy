/** Grants, policies and accruals keep the invariant; hence every reachable state has it. */
module LedgerRuns {
  import opened Wrappers
  import opened Calendar
  import opened Records
  import opened Repository
  import opened Ledger
  import opened LedgerInvariant
  import opened LedgerSteps

  // Allocation i gets `days` allocated days and accrual date `last`, recorded as entry e.
  ghost predicate RecordsChange(db: Db, i: nat, b: Allocation, e: AuditEntry) {
    && i < |db.allocations|
    && b == db.allocations[i].(allocatedDays := b.allocatedDays, lastAccrual := b.lastAccrual)
    && e.Changes(i)
    && Replay1(e, i, Some(db.allocations[i].allocatedDays)) == Some(b.allocatedDays)
    && if e.ManualGrant? then b.lastAccrual == db.allocations[i].lastAccrual
       else
         && b.lastAccrual == Some(e.date)
         && Year(e.date) == b.key.year
         && (db.allocations[i].lastAccrual.Some? ==>
               LaterPeriod(e.frequency, db.allocations[i].lastAccrual.value, e.date))
  }

  lemma ChangeKeepsAudit(db: Db, i: nat, b: Allocation, e: AuditEntry)
    requires FaithfulAudit(db.types, db.allocations, db.audit) && RecordsChange(db, i, b, e)
    ensures FaithfulAudit(db.types, db.allocations[i := b], db.audit + [e])
  {
  }

  lemma HistoryExtends(h: seq<AuditEntry>, a: Allocation, b: Allocation, e: AuditEntry)
    requires forall j :: 0 <= j < |h| ==> h[j].PeriodicAccrual?
    requires AccrualHistory(h, a) && e.PeriodicAccrual?
    requires b.key == a.key && b.lastAccrual == Some(e.date) && Year(e.date) == a.key.year
    requires a.lastAccrual.Some? ==> LaterPeriod(e.frequency, a.lastAccrual.value, e.date)
    ensures AccrualHistory(h + [e], b)
  {
  }

  lemma ChangeKeepsHistory(db: Db, i: nat, b: Allocation, e: AuditEntry, j: nat)
    requires RecordsChange(db, i, b, e) && j < |db.allocations|
    requires AccrualHistory(AccrualsOf(db.audit, j), db.allocations[j])
    ensures AccrualHistory(AccrualsOf(db.audit + [e], j), if j == i then b else db.allocations[j])
  {
    AccrualsAppend(db.audit, e, j);
    if e.PeriodicAccrual? && j == i {
      HistoryExtends(AccrualsOf(db.audit, j), db.allocations[j], b, e);
    }
  }

  lemma ChangeKeepsHistories(db: Db, i: nat, b: Allocation, e: AuditEntry)
    requires AccrualHistories(db.allocations, db.audit) && RecordsChange(db, i, b, e)
    ensures AccrualHistories(db.allocations[i := b], db.audit + [e])
  {
    var after := db.allocations[i := b];
    forall j | 0 <= j < |after|
      ensures AccrualHistory(AccrualsOf(db.audit + [e], j), after[j])
    {
      ChangeKeepsHistory(db, i, b, e, j);
    }
  }

  lemma ChangeKeepsRows(db: Db, i: nat, b: Allocation, e: AuditEntry)
    requires References(db) && UniqueKeys(db.allocations) && Covered(db.requests, db.allocations)
    requires UsedDays(db.types, db.requests, db.allocations) && RecordsChange(db, i, b, e)
    ensures References(WithChange(db, i, b, e))
    ensures UniqueKeys(db.allocations[i := b]) && Covered(db.requests, db.allocations[i := b])
    ensures UsedDays(db.types, db.requests, db.allocations[i := b])
  {
    KeptKeysCover(db.requests, db.allocations, db.allocations[i := b]);
  }

  ghost function WithChange(db: Db, i: nat, b: Allocation, e: AuditEntry): Db
    requires i < |db.allocations|
  {
    db.(allocations := db.allocations[i := b], audit := db.audit + [e])
  }

  lemma ChangeKeepsInv(db: Db, i: nat, b: Allocation, e: AuditEntry)
    requires Inv(db) && RecordsChange(db, i, b, e)
    ensures Inv(WithChange(db, i, b, e))
  {
    ChangeKeepsAudit(db, i, b, e);
    ChangeKeepsHistories(db, i, b, e);
    ChangeKeepsRows(db, i, b, e);
  }

  // A first grant is an allocation opened at zero whose balance the grant then changes.
  lemma GrantFirstKeepsInv(db: Db, k: Key, days: int)
    requires Inv(db) && !HasKey(db.allocations, k) && k.user < |db.users| && k.typ < |db.types|
    ensures Inv(GrantFirst(db, k, days))
  {
    var i := |db.allocations|;
    var grown := db.(allocations := db.allocations + [Fresh(k, 0)]);
    assert Inv(grown) by { OpenKeepsInv(db, k, 0); }
    var e := ManualGrant(k.user, i, days, days);
    assert GrantFirst(db, k, days) == WithChange(grown, i, Fresh(k, days), e) by {
      assert grown.allocations[i := Fresh(k, days)] == db.allocations + [Fresh(k, days)];
    }
    assert RecordsChange(grown, i, Fresh(k, days), e);
    ChangeKeepsInv(grown, i, Fresh(k, days), e);
  }

  lemma GrantRowRecords(db: Db, i: nat, user: nat, days: int, b: Allocation, e: AuditEntry)
    requires i < |db.allocations|
    requires b == db.allocations[i].(allocatedDays := db.allocations[i].allocatedDays + days)
    requires e == ManualGrant(user, i, days, b.allocatedDays)
    ensures GrantRow(db, i, user, days) == WithChange(db, i, b, e) && RecordsChange(db, i, b, e)
  {
  }

  lemma GrantRowKeepsInv(db: Db, i: nat, user: nat, days: int)
    requires Inv(db) && i < |db.allocations|
    ensures Inv(GrantRow(db, i, user, days))
  {
    var b := db.allocations[i].(allocatedDays := db.allocations[i].allocatedDays + days);
    var e := ManualGrant(user, i, days, b.allocatedDays);
    GrantRowRecords(db, i, user, days, b, e);
    ChangeKeepsInv(db, i, b, e);
  }

  lemma GrantDaysKeepsInv(db: Db, user: nat, typ: nat, year: int, days: int)
    requires Inv(db)
    ensures Inv(Commit(db, GrantDays(db, user, typ, year, days)))
  {
    if GrantDays(db, user, typ, year, days).Success? {
      match FindAllocation(db.allocations, Key(user, typ, year))
      case Row(i) => GrantRowKeepsInv(db, i, user, days);
      case NoRow => GrantFirstKeepsInv(db, Key(user, typ, year), days);
    }
  }

  lemma ConfigurePolicyKeepsInv(db: Db, p: Policy)
    requires Inv(db)
    ensures Inv(Commit(db, ConfigurePolicy(db, p)))
  {
    var o := ConfigurePolicy(db, p);
    if o.Success? {
      var after := db.(policies := o.value.policies);
      assert Inv(after) by {
        PolicyTableKept(db.policies, p, o.value.policies);
      }
      NoteKeepsInv(after, o.value.audit[|db.audit|]);
    }
  }

  lemma PolicyTableKept(policies: seq<Policy>, p: Policy, after: seq<Policy>)
    requires UniquePolicies(policies)
    requires match FindPolicy(policies, p.typ, p.designation)
             case ManyRows => false
             case NoRow => after == policies + [p]
             case Row(i) => after == policies[i := policies[i].(frequency := p.frequency, rate := p.rate,
                                                                maxQuota := p.maxQuota, active := p.active)]
    ensures UniquePolicies(after)
  {
  }

  lemma CreateHolidayKeepsInv(db: Db, date: Date)
    requires Inv(db)
    ensures Inv(Commit(db, CreateHoliday(db, date)))
  {
    if date !in db.holidays {
      var after := db.(holidays := db.holidays + [date]);
      assert Inv(after);
      NoteKeepsInv(after, HolidayCreated(date));
    }
  }

  lemma PutUserKeepsInv(db: Db, id: nat, u: User)
    requires Inv(db)
    ensures Inv(Commit(db, PutUser(db, id, u)))
  {
  }

  // --- Accruals ---------------------------------------------------------------

  // Within the allocation's year, the test of the source is a comparison of period indices.
  lemma ShouldAccrueIsLaterPeriod(f: Frequency, l: Date, today: Date)
    requires Year(l) == Year(today)
    ensures ShouldAccrue(f, Some(l), today) <==> LaterPeriod(f, l, today)
  {
  }

  lemma AccrueRowKeepsInv(db: Db, i: nat, user: nat, pid: nat, p: Policy, today: Date)
    requires Inv(db) && i < |db.allocations| && db.allocations[i].key.year == Year(today)
    ensures Inv(AccrueRow(db, i, user, pid, p, today))
  {
    var a := db.allocations[i];
    if ShouldAccrue(p.frequency, a.lastAccrual, today) {
      assert AccrualHistory(AccrualsOf(db.audit, i), a);
      if a.lastAccrual.Some? {
        ShouldAccrueIsLaterPeriod(p.frequency, a.lastAccrual.value, today);
      }
      var days := Accrued(a.allocatedDays, p);
      var b := a.(allocatedDays := days, lastAccrual := Some(today));
      var e := PeriodicAccrual(user, i, pid, p.frequency, p.rate, a.allocatedDays, days, today);
      assert AccrueRow(db, i, user, pid, p, today) == WithChange(db, i, b, e);
      ChangeKeepsInv(db, i, b, e);
    }
  }

  lemma AccrueStepKeepsInv(db: Db, user: nat, designation: Option<nat>, pid: nat, p: Policy, today: Date)
    requires Inv(db)
    ensures Inv(Commit(db, AccrueStep(db, user, designation, pid, p, today)))
  {
    if Targets(p, designation) {
      var k := Key(user, p.typ, Year(today));
      match FindAllocation(db.allocations, k)
      case ManyRows =>
      case Row(i) => AccrueRowKeepsInv(db, i, user, pid, p, today);
      case NoRow =>
        if user < |db.users| && p.typ < |db.types| {
          var grown := db.(allocations := OpenAt(db.allocations, k, 0));
          assert Inv(grown) by {
            assert db == WithAllocations(db, db.allocations);
            OpenAtKeepsInv(db, db.allocations, k, 0);
          }
          AccrueRowKeepsInv(grown, |db.allocations|, user, pid, p, today);
        }
    }
  }

  lemma {:induction false} TakeTurnsKeepsInv(db: Db, ts: seq<Turn>, today: Date)
    requires Inv(db)
    ensures Inv(Commit(db, TakeTurns(db, ts, today)))
  {
    if ts != [] {
      TakeTurnsKeepsInv(db, ts[..|ts| - 1], today);
      var before := TakeTurns(db, ts[..|ts| - 1], today);
      if before.Success? {
        TakeTurnKeepsInv(before.value, ts[|ts| - 1], today);
      }
    }
  }

  lemma TakeTurnKeepsInv(db: Db, t: Turn, today: Date)
    requires Inv(db)
    ensures Inv(Commit(db, TakeTurn(db, t, today)))
  {
    if t.user < |db.users| && t.policy < |db.policies| {
      AccrueStepKeepsInv(db, t.user, db.users[t.user].designation, t.policy, db.policies[t.policy], today);
    }
  }

  // --- When decisions, cancellations and policies take effect ------------------

  // A decision succeeds exactly on a pending request and is APPROVED or REJECTED.
  lemma DecisionRule(db: Db, id: nat, status: Status, approver: nat)
    requires Inv(db)
    ensures UpdateStatus(db, id, status, approver).Success? <==>
            && approver < |db.users| && id < |db.requests|
            && status in {Approved, Rejected} && db.requests[id].status == Pending
  {
    if approver < |db.users| && id < |db.requests| && status in {Approved, Rejected}
       && db.requests[id].status == Pending {
      UpdateStatusEffect(db, id, status, approver);
    }
  }

  // A cancellation succeeds exactly for the owner of a request that is not cancelled yet and
  // is not approved paid leave that has started.
  lemma CancellationRule(db: Db, id: nat, user: nat, today: Date)
    requires Inv(db)
    ensures CancelLeave(db, id, user, today).Success? <==> CanCancel(db, id, user, today)
  {
  }

  // A configured policy is the one found afterwards for its leave type and designation, or
  // none is when it was configured inactive; every other pair finds what it found before.
  lemma PolicyTakesEffect(db: Db, p: Policy, typ: nat, designation: Option<nat>)
    requires Inv(db) && p.rate > 0 && p.typ < |db.types|
    ensures var o := ConfigurePolicy(db, p);
            && o.Success?
            && (exists i: nat :: i < |o.value.policies| && o.value.policies[i] == p
                                 && o.value.audit == db.audit + [PolicyConfigured(i, p.frequency, p.rate)])
            && var l := FindPolicy(o.value.policies, typ, designation);
               if typ == p.typ && designation == p.designation
               then (if p.active then l.Row? && o.value.policies[l.id] == p else l == NoRow)
               else l == FindPolicy(db.policies, typ, designation)
                    && (l.Row? ==> o.value.policies[l.id] == db.policies[l.id])
  {
    PolicyLookups(db.policies, p.typ, p.designation);
    var i := match FindPolicy(db.policies, p.typ, p.designation) case Row(i) => i case _ => |db.policies|;
    assert ConfigurePolicy(db, p).value.policies[i] == p;
    PolicyTableEffect(db.policies, p, ConfigurePolicy(db, p).value.policies, typ, designation);
  }

  lemma PolicyTableEffect(policies: seq<Policy>, p: Policy, after: seq<Policy>, typ: nat, designation: Option<nat>)
    requires UniquePolicies(policies)
    requires match FindPolicy(policies, p.typ, p.designation)
             case ManyRows => false
             case NoRow => after == policies + [p]
             case Row(i) => after == policies[i := policies[i].(frequency := p.frequency, rate := p.rate,
                                                                maxQuota := p.maxQuota, active := p.active)]
    ensures var l := FindPolicy(after, typ, designation);
            if typ == p.typ && designation == p.designation
            then (if p.active then l.Row? && after[l.id] == p else l == NoRow)
            else l == FindPolicy(policies, typ, designation) && (l.Row? ==> after[l.id] == policies[l.id])
  {
    assert UniquePolicies(after) by { PolicyTableKept(policies, p, after); }
    PolicyRows(policies, after, p, typ, designation);
    PolicyLookups(after, typ, designation);
    PolicyLookups(policies, typ, designation);
  }

  lemma PolicyRows(policies: seq<Policy>, after: seq<Policy>, p: Policy, typ: nat, designation: Option<nat>)
    requires UniquePolicies(policies)
    requires match FindPolicy(policies, p.typ, p.designation)
             case ManyRows => false
             case NoRow => after == policies + [p]
             case Row(i) => after == policies[i := policies[i].(frequency := p.frequency, rate := p.rate,
                                                                maxQuota := p.maxQuota, active := p.active)]
    ensures |policies| <= |after|
    ensures typ == p.typ && designation == p.designation ==>
              (forall i :: 0 <= i < |after| && Governs(after[i], typ, designation) ==> after[i] == p)
              && (p.active ==> exists i :: 0 <= i < |after| && Governs(after[i], typ, designation))
    ensures !(typ == p.typ && designation == p.designation) ==>
              (forall i :: 0 <= i < |policies| && Governs(policies[i], typ, designation) ==> after[i] == policies[i])
              && (forall i :: 0 <= i < |after| && Governs(after[i], typ, designation) ==>
                    i < |policies| && after[i] == policies[i])
  {
    var i := match FindPolicy(policies, p.typ, p.designation) case Row(i) => i case _ => |policies|;
    assert after[i] == p;
  }

  // With unique policies a lookup misses exactly when no row governs.
  lemma PolicyLookups(policies: seq<Policy>, typ: nat, designation: Option<nat>)
    requires UniquePolicies(policies)
    ensures FindPolicy(policies, typ, designation) != ManyRows
  {
  }

  // Editing a user changes that user, adds the next one, or fails; nothing else changes.
  lemma UserTakesEffect(db: Db, id: nat, u: User)
    ensures Perform(db, UserPut(id, u)).Success? <==> id <= |db.users|
    ensures id <= |db.users| ==>
              var after := Step(db, UserPut(id, u));
              && after == db.(users := after.users)
              && |after.users| == (if id < |db.users| then |db.users| else |db.users| + 1)
              && after.users[id] == u
              && forall j :: 0 <= j < |db.users| && j != id ==> after.users[j] == db.users[j]
  {
  }

  // --- Runs -------------------------------------------------------------------

  lemma RequestEventKeepsInv(db: Db, ev: Event)
    requires Inv(db) && (ev.LeaveRequested? || ev.StatusSet? || ev.LeaveWithdrawn?)
    ensures Inv(Step(db, ev))
  {
    match ev
    case LeaveRequested(user, payload) => ApplyLeaveKeepsInv(db, user, payload);
    case StatusSet(request, status, approver) => UpdateStatusKeepsInv(db, request, status, approver);
    case LeaveWithdrawn(request, user, today) => CancelLeaveKeepsInv(db, request, user, today);
  }

  lemma TableEventKeepsInv(db: Db, ev: Event)
    requires Inv(db) && (ev.DaysGranted? || ev.PolicySet? || ev.HolidayAdded? || ev.UserPut?)
    ensures Inv(Step(db, ev))
  {
    match ev
    case DaysGranted(user, typ, year, days) => GrantDaysKeepsInv(db, user, typ, year, days);
    case PolicySet(policy) => ConfigurePolicyKeepsInv(db, policy);
    case HolidayAdded(date) => CreateHolidayKeepsInv(db, date);
    case UserPut(id, record) => PutUserKeepsInv(db, id, record);
  }

  lemma RunEventStep(db: Db, users: seq<nat>, policies: seq<nat>, today: Date)
    ensures Step(db, AccrualRun(users, policies, today)) == Commit(db, TakeTurns(db, Turns(users, policies), today))
  {
  }

  lemma RunEventKeepsInv(db: Db, users: seq<nat>, policies: seq<nat>, today: Date)
    requires Inv(db)
    ensures Inv(Step(db, AccrualRun(users, policies, today)))
  {
    TakeTurnsKeepsInv(db, Turns(users, policies), today);
    RunEventStep(db, users, policies, today);
  }

  lemma ViewKeepsInv(db: Db, user: nat, year: int)
    requires Inv(db)
    ensures Inv(Commit(db, ViewBalances(db, user, year)))
  {
    if user < |db.users| {
      OpenTypesKeepsInv(db, user, year, |db.types|);
    }
  }

  lemma StepKeepsInv(db: Db, ev: Event)
    requires Inv(db)
    ensures Inv(Step(db, ev))
  {
    if ev.BalancesViewed? {
      ViewKeepsInv(db, ev.user, ev.year);
    } else if ev.LeaveRequested? || ev.StatusSet? || ev.LeaveWithdrawn? {
      RequestEventKeepsInv(db, ev);
    } else if ev.AccrualTurn? {
      AccrueStepKeepsInv(db, ev.user, ev.designation, ev.pid, ev.policy, ev.today);
    } else if ev.AccrualRun? {
      RunEventKeepsInv(db, ev.users, ev.policies, ev.today);
    } else {
      TableEventKeepsInv(db, ev);
    }
  }

  // No run, whatever its operations, leaves the invariant.
  lemma {:induction false} RunKeepsInv(db: Db, evs: seq<Event>)
    requires Inv(db)
    ensures Inv(Run(db, evs))
  {
    if evs != [] {
      RunKeepsInv(db, evs[..|evs| - 1]);
      StepKeepsInv(Run(db, evs[..|evs| - 1]), evs[|evs| - 1]);
    }
  }

  // Every state reached from empty tables satisfies the invariant: `used_days` conservation,
  // no double booking, unique keys, approval rows, the audit ledger and the accrual order.
  lemma ReachableInv(db: Db, evs: seq<Event>)
    requires Initial(db)
    ensures Inv(Run(db, evs))
  {
    InitialInv(db);
    RunKeepsInv(db, evs);
  }

  // Conservation: in every reachable state `used_days` is the sum of the approved requests of
  // its user, paid leave type and year, and zero for unpaid leave.
  lemma UsedDaysAreConserved(db: Db, evs: seq<Event>, i: nat)
    requires Initial(db) && i < |Run(db, evs).allocations|
    ensures var now := Run(db, evs);
            var a := now.allocations[i];
            a.usedDays == if now.IsPaid(a.key.typ) then ApprovedDays(now.requests, a.key) else 0
  {
    ReachableInv(db, evs);
  }

  // So a stored request always has its allocation, and the floor of zero under a restored
  // `used_days` never binds.
  lemma RestoringNeverClamps(db: Db, evs: seq<Event>, id: nat)
    requires Initial(db) && id < |Run(db, evs).requests|
    ensures var now := Run(db, evs);
            var r := now.requests[id];
            var l := FindAllocation(now.allocations, r.DrawsOn());
            l.Row? && (r.status == Approved && now.IsPaid(r.typ) ==> r.total <= now.allocations[l.id].usedDays)
  {
    ReachableInv(db, evs);
    var now := Run(db, evs);
    StoredRequestHasAllocation(now, id);
    var i := FindAllocation(now.allocations, now.requests[id].DrawsOn()).id;
    if now.requests[id].status == Approved && now.IsPaid(now.requests[id].typ) {
      ApprovedDaysAreUsed(now, id, i);
    }
  }

  // In every reachable state no date lies in two live requests of one user.
  lemma NoDateIsBookedTwice(db: Db, evs: seq<Event>, i: nat, j: nat, d: Date)
    requires Initial(db) && i < j < |Run(db, evs).requests|
    ensures var a, b := Run(db, evs).requests[i], Run(db, evs).requests[j];
            a.user == b.user && a.Live() && b.Live() ==> !(Covers(a.start, a.end, d) && Covers(b.start, b.end, d))
  {
    ReachableInv(db, evs);
  }

  // The selections read with `scalar_one_or_none` never find two rows.
  lemma LookupsAreUnambiguous(db: Db, evs: seq<Event>, k: Key, designation: Option<nat>)
    requires Initial(db)
    ensures var now := Run(db, evs);
            && FindAllocation(now.allocations, k) != ManyRows
            && FindPolicy(now.policies, k.typ, designation) != ManyRows
  {
    ReachableInv(db, evs);
  }
}
