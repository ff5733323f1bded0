/** The audit log accounts for every allocated day, from the opening of each allocation on. */
module AuditLedger {
  import opened Wrappers
  import opened Calendar
  import opened Records
  import opened Repository
  import opened Ledger
  import opened LedgerInvariant
  import opened LedgerSteps
  import opened LedgerRuns
  import opened AllocationViews

  // --- The log as a ledger ----------------------------------------------------

  lemma {:induction false} ReplayConcat(a: seq<AuditEntry>, b: seq<AuditEntry>, i: nat, days: Option<int>)
    ensures Replay(a + b, i, days) == Replay(b, i, Replay(a, i, days))
  {
    if b == [] {
      assert a + b == a;
    } else {
      ReplayConcat(a, b[..|b| - 1], i, days);
      assert (a + b)[..|a + b| - 1] == a + b[..|b| - 1];
    }
  }

  // From db to d the log only grows, and the new entries about allocation i chain from its
  // value in db to its value in d.
  ghost predicate Chains(db: Db, d: Db, i: nat) {
    && i < |db.allocations| <= |d.allocations|
    && d.allocations[i].key == db.allocations[i].key
    && db.audit <= d.audit
    && Replay(d.audit[|db.audit|..], i, Some(db.allocations[i].allocatedDays)) == Some(d.allocations[i].allocatedDays)
  }

  lemma ChainsTrans(a: Db, b: Db, c: Db, i: nat)
    requires Chains(a, b, i) && Chains(b, c, i)
    ensures Chains(a, c, i)
  {
    var first, second := b.audit[|a.audit|..], c.audit[|b.audit|..];
    assert c.audit[|a.audit|..] == first + second;
    ReplayConcat(first, second, i, Some(a.allocations[i].allocatedDays));
  }

  // A step that appends at most one entry chains when that entry accounts for the change.
  lemma OneEntryChains(db: Db, d: Db, i: nat, e: AuditEntry)
    requires i < |db.allocations| <= |d.allocations| && d.allocations[i].key == db.allocations[i].key
    requires d.audit == db.audit + [e]
    requires Replay1(e, i, Some(db.allocations[i].allocatedDays)) == Some(d.allocations[i].allocatedDays)
    ensures Chains(db, d, i)
  {
  }

  lemma NoEntryChains(db: Db, d: Db, i: nat)
    requires i < |db.allocations| <= |d.allocations| && d.allocations[i].key == db.allocations[i].key
    requires d.audit == db.audit && d.allocations[i].allocatedDays == db.allocations[i].allocatedDays
    ensures Chains(db, d, i)
  {
  }

  lemma AccrueStepChains(db: Db, user: nat, designation: Option<nat>, pid: nat, p: Policy, today: Date, i: nat)
    requires i < |db.allocations|
    ensures Chains(db, Commit(db, AccrueStep(db, user, designation, pid, p, today)), i)
  {
  }

  lemma {:induction false} TakeTurnsChains(db: Db, ts: seq<Turn>, today: Date, i: nat)
    requires i < |db.allocations|
    ensures Chains(db, Commit(db, TakeTurns(db, ts, today)), i)
  {
    NoEntryChains(db, db, i);
    if ts != [] {
      TakeTurnsChains(db, ts[..|ts| - 1], today, i);
      var before := TakeTurns(db, ts[..|ts| - 1], today);
      if before.Success? {
        TakeTurnChains(before.value, ts[|ts| - 1], today, i);
        ChainsTrans(db, before.value, Commit(before.value, TakeTurn(before.value, ts[|ts| - 1], today)), i);
      }
    }
  }

  lemma TakeTurnChains(db: Db, t: Turn, today: Date, i: nat)
    requires i < |db.allocations|
    ensures Chains(db, Commit(db, TakeTurn(db, t, today)), i)
  {
  }

  lemma ApplyChains(db: Db, user: nat, p: LeavePayload, i: nat)
    requires i < |db.allocations|
    ensures Chains(db, Commit(db, ApplyLeave(db, user, p)), i)
  {
    NoEntryChains(db, db, i);
    OpenTypesOpens(db.allocations, db.types, user, Year(p.start), |db.types|);
    var check := CheckRequest(db, user, p);
    if check.Success? {
      FileChains(db, user, p, check.value, i);
    }
  }

  lemma FileChains(db: Db, user: nat, p: LeavePayload, total: int, i: nat)
    requires i < |db.allocations| && p.typ < |db.types|
    requires db.allocations <= OpenYear(db, user, Year(p.start))
    ensures Chains(db, Commit(db, FileRequest(db, user, p, total)), i)
  {
  }

  lemma StepChains(db: Db, ev: Event, i: nat)
    requires i < |db.allocations|
    ensures Chains(db, Step(db, ev), i)
  {
    NoEntryChains(db, db, i);
    var d := Step(db, ev);
    match ev
    case BalancesViewed(user, year) =>
      OpenTypesOpens(db.allocations, db.types, user, year, |db.types|);
      NoEntryChains(db, d, i);
    case LeaveRequested(user, payload) => ApplyChains(db, user, payload, i);
    case UserPut(id, record) => NoEntryChains(db, d, i);
    case AccrualTurn(user, designation, pid, policy, today) =>
      AccrueStepChains(db, user, designation, pid, policy, today, i);
    case AccrualRun(users, policies, today) => TakeTurnsChains(db, Turns(users, policies), today, i);
    case _ =>
      if Perform(db, ev).Success? {
        OneEntryChains(db, d, i, d.audit[|db.audit|]);
      }
  }

  // Over any run the audit log only grows, and for every allocation the grants and accruals
  // it gained account exactly for the change of `allocated_days`.
  lemma {:induction false} AuditAccountsForEveryChange(db: Db, evs: seq<Event>, i: nat)
    requires i < |db.allocations|
    ensures Chains(db, Run(db, evs), i)
  {
    if evs == [] {
      NoEntryChains(db, db, i);
    } else {
      AuditAccountsForEveryChange(db, evs[..|evs| - 1], i);
      StepChains(Run(db, evs[..|evs| - 1]), evs[|evs| - 1], i);
      ChainsTrans(db, Run(db, evs[..|evs| - 1]), Run(db, evs), i);
    }
  }

  // --- Openings ---------------------------------------------------------------

  // Allocation i is new in d, and the new entries chain from `days` to its value.
  ghost predicate OpensChain(db: Db, d: Db, i: nat, days: int) {
    && |db.allocations| <= i < |d.allocations|
    && db.audit <= d.audit
    && Replay(d.audit[|db.audit|..], i, Some(days)) == Some(d.allocations[i].allocatedDays)
  }

  // An allocation opened on the way, then changed.
  lemma OpenThenChain(a: Db, b: Db, c: Db, i: nat, days: int)
    requires OpensChain(a, b, i, days) && Chains(b, c, i)
    ensures OpensChain(a, c, i, days)
  {
    var first, second := b.audit[|a.audit|..], c.audit[|b.audit|..];
    assert c.audit[|a.audit|..] == first + second;
    ReplayConcat(first, second, i, Some(days));
  }

  // Nothing is recorded about an allocation before it is opened.
  lemma ChainThenOpen(a: Db, b: Db, c: Db, i: nat, days: int)
    requires |a.allocations| <= |b.allocations| && a.audit <= b.audit && RefersTo(b.audit, |b.allocations|)
    requires OpensChain(b, c, i, days)
    ensures OpensChain(a, c, i, days)
  {
    var first, second := b.audit[|a.audit|..], c.audit[|b.audit|..];
    assert RefersTo(first, i) by {
      assert forall e :: 0 <= e < |first| ==> first[e] == b.audit[e + |a.audit|];
    }
    NothingRecorded(first, i, Some(days));
    assert c.audit[|a.audit|..] == first + second;
    ReplayConcat(first, second, i, Some(days));
  }

  lemma TurnOpens(db: Db, user: nat, designation: Option<nat>, pid: nat, p: Policy, today: Date, i: nat)
    requires |db.allocations| <= i < |Commit(db, AccrueStep(db, user, designation, pid, p, today)).allocations|
    ensures OpensChain(db, Commit(db, AccrueStep(db, user, designation, pid, p, today)), i, 0)
  {
    var d := Commit(db, AccrueStep(db, user, designation, pid, p, today));
    assert d.audit[|db.audit|..] == [d.audit[|db.audit|]];
  }

  lemma {:induction false} TurnsGrow(db: Db, ts: seq<Turn>, today: Date)
    ensures var d := Commit(db, TakeTurns(db, ts, today));
            |db.allocations| <= |d.allocations| && db.audit <= d.audit
  {
    if ts != [] {
      TurnsGrow(db, ts[..|ts| - 1], today);
    }
  }

  lemma {:induction false} TurnsOpen(db: Db, ts: seq<Turn>, today: Date, i: nat)
    requires Inv(db) && |db.allocations| <= i < |Commit(db, TakeTurns(db, ts, today)).allocations|
    ensures OpensChain(db, Commit(db, TakeTurns(db, ts, today)), i, 0)
  {
    var before, t := ts[..|ts| - 1], ts[|ts| - 1];
    var b := TakeTurns(db, before, today).value;
    if i < |b.allocations| {
      TurnsOpen(db, before, today, i);
      TakeTurnChains(b, t, today, i);
      OpenThenChain(db, b, Commit(b, TakeTurn(b, t, today)), i, 0);
    } else {
      TurnsGrow(db, before, today);
      assert RefersTo(b.audit, |b.allocations|) by { TakeTurnsKeepsInv(db, before, today); }
      TurnOpens(b, t.user, b.users[t.user].designation, t.policy, b.policies[t.policy], today, i);
      ChainThenOpen(db, b, Commit(b, TakeTurn(b, t, today)), i, 0);
    }
  }

  lemma FileOpens(db: Db, user: nat, p: LeavePayload, total: int, i: nat)
    requires p.typ < |db.types| && UniqueKeys(OpenYear(db, user, Year(p.start)))
    requires |db.allocations| <= i < |Commit(db, FileRequest(db, user, p, total)).allocations|
    ensures var d := Commit(db, FileRequest(db, user, p, total));
            OpensChain(db, d, i, OpensWith(db, LeaveRequested(user, p), d.allocations[i].key))
  {
    var d := Commit(db, FileRequest(db, user, p, total));
    var grown := OpenYear(db, user, Year(p.start));
    OpenTypesOpens(db.allocations, db.types, user, Year(p.start), |db.types|);
    FileRequestCharges(db, user, p, total);
    assert OpenedRow(grown[i], db.types, user, Year(p.start), |db.types|);
    assert d.audit[|db.audit|..] == [d.audit[|db.audit|]];
  }

  lemma ApplyOpens(db: Db, user: nat, p: LeavePayload, i: nat)
    requires Inv(db) && |db.allocations| <= i < |Commit(db, ApplyLeave(db, user, p)).allocations|
    ensures var d := Commit(db, ApplyLeave(db, user, p));
            OpensChain(db, d, i, OpensWith(db, LeaveRequested(user, p), d.allocations[i].key))
  {
    OpenTypesKeepsInv(db, user, Year(p.start), |db.types|);
    FileOpens(db, user, p, CheckRequest(db, user, p).value, i);
  }

  lemma ViewOpens(db: Db, user: nat, year: int, i: nat)
    requires |db.allocations| <= i < |Commit(db, ViewBalances(db, user, year)).allocations|
    ensures var d := Commit(db, ViewBalances(db, user, year));
            OpensChain(db, d, i, OpensWith(db, BalancesViewed(user, year), d.allocations[i].key))
  {
    OpenTypesOpens(db.allocations, db.types, user, year, |db.types|);
    assert OpenedRow(OpenYear(db, user, year)[i], db.types, user, year, |db.types|);
  }

  lemma GrantOpens(db: Db, user: nat, typ: nat, year: int, days: int, i: nat)
    requires |db.allocations| <= i < |Commit(db, GrantDays(db, user, typ, year, days)).allocations|
    ensures OpensChain(db, Commit(db, GrantDays(db, user, typ, year, days)), i, 0)
  {
    var d := Commit(db, GrantDays(db, user, typ, year, days));
    assert d.audit[|db.audit|..] == [ManualGrant(user, i, days, days)];
  }

  lemma OthersOpenNothing(db: Db, ev: Event)
    requires ev.StatusSet? || ev.LeaveWithdrawn? || ev.PolicySet? || ev.HolidayAdded? || ev.UserPut?
    ensures |Step(db, ev).allocations| == |db.allocations|
  {
  }

  // An event that opens an allocation opens it with the days OpensWith says.
  lemma StepOpens(db: Db, ev: Event, i: nat)
    requires Inv(db) && |db.allocations| <= i < |Step(db, ev).allocations|
    ensures OpensChain(db, Step(db, ev), i, OpensWith(db, ev, Step(db, ev).allocations[i].key))
  {
    if ev.BalancesViewed? {
      ViewOpens(db, ev.user, ev.year, i);
    } else if ev.LeaveRequested? {
      ApplyOpens(db, ev.user, ev.payload, i);
    } else if ev.DaysGranted? {
      GrantOpens(db, ev.user, ev.typ, ev.year, ev.days, i);
    } else if ev.AccrualTurn? {
      TurnOpens(db, ev.user, ev.designation, ev.pid, ev.policy, ev.today, i);
    } else if ev.AccrualRun? {
      TurnsOpen(db, Turns(ev.users, ev.policies), ev.today, i);
    } else {
      OthersOpenNothing(db, ev);
    }
  }

  // The whole log chains from `days` to allocation i.
  ghost predicate ChainsFrom(d: Db, i: nat, days: int) {
    i < |d.allocations| && Replay(d.audit, i, Some(days)) == Some(d.allocations[i].allocatedDays)
  }

  lemma ChainsOn(b: Db, d: Db, i: nat, days: int)
    requires ChainsFrom(b, i, days) && Chains(b, d, i)
    ensures ChainsFrom(d, i, days)
  {
    assert d.audit == b.audit + d.audit[|b.audit|..];
    ReplayConcat(b.audit, d.audit[|b.audit|..], i, Some(days));
  }

  lemma ChainsAnew(b: Db, d: Db, i: nat, days: int)
    requires RefersTo(b.audit, |b.allocations|) && OpensChain(b, d, i, days)
    ensures ChainsFrom(d, i, days)
  {
    assert d.audit == b.audit + d.audit[|b.audit|..];
    NothingRecorded(b.audit, i, Some(days));
    ReplayConcat(b.audit, d.audit[|b.audit|..], i, Some(days));
  }

  lemma KeyIsNew(b: Db, d: Db, i: nat)
    requires UniqueKeys(d.allocations) && KeepsKeys(b.allocations, d.allocations)
    requires |b.allocations| <= i < |d.allocations|
    ensures View(b, d.allocations[i].key).None?
  {
    assert forall j :: 0 <= j < |b.allocations| ==> d.allocations[j].key == b.allocations[j].key;
    assert !HasKey(b.allocations, d.allocations[i].key);
  }

  lemma StepKeepsKeys(db: Db, ev: Event)
    ensures KeepsKeys(db.allocations, Step(db, ev).allocations)
  {
    forall i: nat | i < |db.allocations|
      ensures i < |Step(db, ev).allocations| && Step(db, ev).allocations[i].key == db.allocations[i].key
    {
      StepChains(db, ev, i);
    }
    if db.allocations != [] {
      StepChains(db, ev, |db.allocations| - 1);
    }
  }

  // From empty tables on, the log about an allocation chains from the days its creator opened
  // it with (the default quota for a look-up or an application, zero for a grant or an
  // accrual) to the days it has now.
  lemma {:induction false} AllocationsAreAccounted(db: Db, evs: seq<Event>, i: nat)
    requires Initial(db) && i < |Run(db, evs).allocations|
    ensures ChainsFrom(Run(db, evs), i, Opened(db, evs, Run(db, evs).allocations[i].key))
  {
    var before, ev := evs[..|evs| - 1], evs[|evs| - 1];
    var b, d := Run(db, before), Run(db, evs);
    if i < |b.allocations| {
      AllocationsAreAccounted(db, before, i);
      StepChains(b, ev, i);
      ChainsOn(b, d, i, Opened(db, before, b.allocations[i].key));
      assert UniqueKeys(b.allocations) by { ReachableInv(db, before); }
      ViewOfRow(b, i);
    } else {
      assert Inv(b) by { ReachableInv(db, before); }
      StepOpens(b, ev, i);
      ChainsAnew(b, d, i, OpensWith(b, ev, d.allocations[i].key));
      assert UniqueKeys(d.allocations) by { ReachableInv(db, evs); }
      StepKeepsKeys(b, ev);
      KeyIsNew(b, d, i);
    }
  }
}
