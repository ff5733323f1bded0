/** Whole accrual runs: they succeed, repeat harmlessly, and do not depend on the order of rows. */
module AccrualRuns {
  import opened Wrappers
  import opened Calendar
  import opened Records
  import opened Repository
  import opened Ledger
  import opened LedgerInvariant
  import opened LedgerRuns
  import opened Lifecycle
  import opened AllocationViews

  // --- Repeating a run --------------------------------------------------------

  // The turn would find its allocation present and its period served.
  ghost predicate Settled(db: Db, t: Turn, today: Date) {
    && t.user < |db.users| && t.policy < |db.policies|
    && forall k :: Hits(db, t, today, k) ==>
         View(db, k).Some? && !ShouldAccrue(db.policies[t.policy].frequency, View(db, k).value.lastAccrual, today)
  }

  lemma SettledTurnIsIdle(db: Db, t: Turn, today: Date)
    requires UniqueKeys(db.allocations) && Settled(db, t, today)
    ensures TakeTurn(db, t, today) == Success(db)
  {
    var p := db.policies[t.policy];
    if Targets(p, db.users[t.user].designation) {
      assert Hits(db, t, today, Key(t.user, p.typ, Year(today)));
    }
  }

  // A turn settles itself and unsettles no other turn of the same date.
  lemma TurnSettles(db: Db, t: Turn, s: Turn, today: Date)
    requires UniqueKeys(db.allocations) && References(db) && t.user < |db.users| && t.policy < |db.policies|
    requires s == t || Settled(db, s, today)
    ensures TakeTurn(db, t, today).Success? && Settled(TakeTurn(db, t, today).value, s, today)
  {
    TurnSucceeds(db, t, today);
    var d := TakeTurn(db, t, today).value;
    AccrueStepOnlyAccrues(db, t.user, db.users[t.user].designation, t.policy, db.policies[t.policy], today);
    forall k | Hits(d, s, today, k)
      ensures View(d, k).Some?
      ensures !ShouldAccrue(d.policies[s.policy].frequency, View(d, k).value.lastAccrual, today)
    {
      TurnView(db, t, today, k);
      assert Hits(db, s, today, k);
    }
  }

  lemma {:induction false} TurnsSettle(db: Db, ts: seq<Turn>, today: Date, s: Turn)
    requires Inv(db) && InRange(db, ts) && s in ts
    ensures TakeTurns(db, ts, today).Success? && Settled(TakeTurns(db, ts, today).value, s, today)
  {
    var before, t := ts[..|ts| - 1], ts[|ts| - 1];
    assert t in ts;
    TurnsSucceed(db, before, today);
    var b := TakeTurns(db, before, today).value;
    assert UniqueKeys(b.allocations) && References(b) by { TakeTurnsKeepsInv(db, before, today); }
    TakeTurnsOnlyAccrue(db, before, today);
    if s != t {
      assert s in before;
      TurnsSettle(db, before, today, s);
    }
    TurnSettles(b, t, s, today);
  }

  lemma {:induction false} SettledTurnsAreIdle(db: Db, ts: seq<Turn>, today: Date)
    requires UniqueKeys(db.allocations) && forall t :: t in ts ==> Settled(db, t, today)
    ensures TakeTurns(db, ts, today) == Success(db)
  {
    if ts != [] {
      SettledTurnsAreIdle(db, ts[..|ts| - 1], today);
      SettledTurnIsIdle(db, ts[|ts| - 1], today);
    }
  }

  // The period of today, under f, is served.
  ghost predicate PeriodServed(a: Option<Allocation>, f: Frequency, today: Date) {
    a.Some? && !ShouldAccrue(f, a.value.lastAccrual, today)
  }

  // A later accrual of the same year, under whatever policy, leaves a served period served.
  lemma AccrueKeepsServed(a: Allocation, p: Policy, date: Date, f: Frequency, today: Date)
    requires !ShouldAccrue(f, a.lastAccrual, today)
    requires Year(date) == Year(today) && LastInYear(a, Year(today))
    ensures !ShouldAccrue(f, Accrue(a, p, date).lastAccrual, today)
  {
  }

  lemma EventKeepsServed(db: Db, ev: Event, k: Key, f: Frequency, today: Date)
    requires PeriodServed(View(db, k), f, today) && k.year == Year(today)
    requires LastInYear(OrFresh(View(db, k), k), k.year)
    ensures PeriodServed(ViewAfter(db, ev, k), f, today)
  {
    var a := View(db, k).value;
    if ev.AccrualTurn? && k.year == Year(ev.today) {
      AccrueKeepsServed(a, ev.policy, ev.today, f, today);
    }
    if ev.AccrualRun? {
      var ts := Turns(ev.users, ev.policies);
      var first := FirstDue(db, ts, ev.today, k);
      FirstDueIsDue(db, ts, ev.today, k);
      if first.Some? {
        AccrueKeepsServed(a, db.policies[first.value.policy], ev.today, f, today);
      }
    }
  }

  lemma ServedAfterStep(db: Db, ev: Event, k: Key, f: Frequency, today: Date)
    requires Inv(db) && PeriodServed(View(db, k), f, today) && k.year == Year(today)
    ensures PeriodServed(View(Step(db, ev), k), f, today)
  {
    StepView(db, ev, k);
    ViewInYear(db, k);
    EventKeepsServed(db, ev, k, f, today);
  }

  lemma StepKeepsSettled(db: Db, ev: Event, t: Turn, today: Date)
    requires Inv(db) && KeepsSettings(ev) && Settled(db, t, today)
    ensures Settled(Step(db, ev), t, today)
  {
    SettingsKept(db, ev);
    forall k | Hits(Step(db, ev), t, today, k)
      ensures PeriodServed(View(Step(db, ev), k), db.policies[t.policy].frequency, today)
    {
      assert Hits(db, t, today, k);
      ServedAfterStep(db, ev, k, db.policies[t.policy].frequency, today);
    }
  }

  lemma {:induction false} RunKeepsSettled(db: Db, evs: seq<Event>, t: Turn, today: Date)
    requires Inv(db) && Settled(db, t, today) && forall e :: 0 <= e < |evs| ==> KeepsSettings(evs[e])
    ensures Settled(Run(db, evs), t, today)
  {
    if evs != [] {
      var before := evs[..|evs| - 1];
      RunKeepsSettled(db, before, t, today);
      RunKeepsInv(db, before);
      StepKeepsSettled(Run(db, before), evs[|evs| - 1], t, today);
    }
  }

  // After the accruals of a date have run, whatever else happens, short of editing users or
  // policies, running them again, with the same or fewer users and policies in any order,
  // changes nothing: no allocation, no audit entry, a count of zero.
  lemma RunIsIdempotent(db: Db, users: seq<nat>, policies: seq<nat>, evs: seq<Event>,
                        users2: seq<nat>, policies2: seq<nat>, today: Date)
    requires Inv(db)
    requires forall u :: u in users ==> u < |db.users|
    requires forall p :: p in policies ==> p < |db.policies|
    requires forall u :: u in users2 ==> u in users
    requires forall p :: p in policies2 ==> p in policies
    requires forall e :: 0 <= e < |evs| ==> KeepsSettings(evs[e])
    ensures var once := RunAccruals(db, users, policies, today);
            once.Success? && RunAccruals(Run(once.value, evs), users2, policies2, today) == Success(Run(once.value, evs))
  {
    var ts := Turns(users, policies);
    AllInRange(db, users, policies);
    TurnsSucceed(db, ts, today);
    var d := TakeTurns(db, ts, today).value;
    TakeTurnsKeepsInv(db, ts, today);
    forall t | t in Turns(users2, policies2)
      ensures Settled(Run(d, evs), t, today)
    {
      TurnsAreAllPairs(users2, policies2, t);
      TurnsAreAllPairs(users, policies, t);
      TurnsSettle(db, ts, today, t);
      RunKeepsSettled(d, evs, t, today);
    }
    assert UniqueKeys(Run(d, evs).allocations) by { RunKeepsInv(d, evs); }
    SettledTurnsAreIdle(Run(d, evs), Turns(users2, policies2), today);
  }

  lemma AllInRange(db: Db, users: seq<nat>, policies: seq<nat>)
    requires forall u :: u in users ==> u < |db.users|
    requires forall p :: p in policies ==> p < |db.policies|
    ensures InRange(db, Turns(users, policies))
  {
    forall t | t in Turns(users, policies)
      ensures t.user < |db.users| && t.policy < |db.policies|
    {
      TurnsAreAllPairs(users, policies, t);
    }
  }

  // --- Whom a run reaches -----------------------------------------------------

  // Listed policy q accrues the allocation of k on this date: k is of this year and of a listed
  // user, and q is of its leave type, not manual, and for everyone or for the designation of
  // that user.
  ghost predicate ReachedBy(db: Db, users: seq<nat>, policies: seq<nat>, today: Date, k: Key, q: nat) {
    && k.year == Year(today) && k.user in users && k.user < |db.users|
    && q in policies && q < |db.policies| && db.policies[q].typ == k.typ
    && db.policies[q].frequency != Manual
    && (db.policies[q].designation == None || db.policies[q].designation == db.users[k.user].designation)
  }

  ghost predicate Reached(db: Db, users: seq<nat>, policies: seq<nat>, today: Date, k: Key) {
    exists q :: ReachedBy(db, users, policies, today, k, q)
  }

  // Nothing was accrued to a yet, or only in earlier periods of its year.
  ghost predicate Awaits(a: Allocation, f: Frequency, today: Date) {
    a.lastAccrual == None || LaterPeriod(f, a.lastAccrual.value, today)
  }

  // The rate is added, up to the quota.
  ghost function Topped(a: Allocation, p: Policy, today: Date): Allocation {
    var days := a.allocatedDays + p.rate;
    a.(allocatedDays := if p.maxQuota.Some? && p.maxQuota.value < days then p.maxQuota.value else days,
       lastAccrual := Some(today))
  }

  lemma HitsAreReached(db: Db, users: seq<nat>, policies: seq<nat>, today: Date, k: Key, t: Turn)
    ensures t in Turns(users, policies) && Hits(db, t, today, k) <==>
            t.user == k.user && ReachedBy(db, users, policies, today, k, t.policy)
  {
    TurnsAreAllPairs(users, policies, t);
  }

  lemma HitByIsReached(db: Db, users: seq<nat>, policies: seq<nat>, today: Date, k: Key)
    ensures HitBy(db, Turns(users, policies), today, k) <==> Reached(db, users, policies, today, k)
  {
    if HitBy(db, Turns(users, policies), today, k) {
      var t :| t in Turns(users, policies) && Hits(db, t, today, k);
      HitsAreReached(db, users, policies, today, k, t);
    }
    if Reached(db, users, policies, today, k) {
      var q :| ReachedBy(db, users, policies, today, k, q);
      HitsAreReached(db, users, policies, today, k, Turn(k.user, q));
    }
  }

  lemma AwaitsIsDue(a: Allocation, p: Policy, today: Date)
    requires LastInYear(a, Year(today))
    ensures ShouldAccrue(p.frequency, a.lastAccrual, today) <==> Awaits(a, p.frequency, today)
    ensures Accrue(a, p, today) == if Awaits(a, p.frequency, today) then Topped(a, p, today) else a
  {
    if a.lastAccrual.Some? {
      ShouldAccrueIsLaterPeriod(p.frequency, a.lastAccrual.value, today);
    }
  }

  // A policy that reaches k finds it, as it is before the run, served in earlier periods only.
  ghost predicate DueUnder(db: Db, users: seq<nat>, policies: seq<nat>, today: Date, k: Key, q: nat) {
    ReachedBy(db, users, policies, today, k, q) && Awaits(OrFresh(View(db, k), k), db.policies[q].frequency, today)
  }

  // What a run may make of the allocation of k.
  ghost predicate RunOutcome(db: Db, users: seq<nat>, policies: seq<nat>, today: Date, k: Key, after: Option<Allocation>) {
    var a := OrFresh(View(db, k), k);
    if !Reached(db, users, policies, today, k) then after == View(db, k)
    else if forall q: nat :: !DueUnder(db, users, policies, today, k, q) then after == Some(a)
    else exists q: nat :: DueUnder(db, users, policies, today, k, q) && after == Some(Topped(a, db.policies[q], today))
  }

  lemma TurnsReach(db: Db, users: seq<nat>, policies: seq<nat>, today: Date, k: Key)
    requires LastInYear(OrFresh(View(db, k), k), k.year)
    ensures RunOutcome(db, users, policies, today, k, AfterTurns(db, Turns(users, policies), today, k))
  {
    var ts := Turns(users, policies);
    var a := OrFresh(View(db, k), k);
    var first := FirstDue(db, ts, today, k);
    HitByIsReached(db, users, policies, today, k);
    FirstDueIsDue(db, ts, today, k);
    if first.Some? {
      HitsAreReached(db, users, policies, today, k, first.value);
      AwaitsIsDue(a, db.policies[first.value.policy], today);
      assert DueUnder(db, users, policies, today, k, first.value.policy);
    }
    forall q: nat | DueUnder(db, users, policies, today, k, q)
      ensures first.Some?
    {
      HitsAreReached(db, users, policies, today, k, Turn(k.user, q));
      AwaitsIsDue(a, db.policies[q], today);
    }
  }

  // A run leaves an allocation as it was unless a listed policy of its leave type, not manual
  // and for everyone or for its user's designation, reaches it; one that is reached is opened
  // if it was missing, and accrues under one of those policies exactly when one of them was
  // last served in an earlier period.
  lemma RunReaches(db: Db, users: seq<nat>, policies: seq<nat>, today: Date, k: Key)
    requires Inv(db)
    requires forall u :: u in users ==> u < |db.users|
    requires forall p :: p in policies ==> p < |db.policies|
    ensures var o := RunAccruals(db, users, policies, today);
            && o.Success?
            && RunOutcome(db, users, policies, today, k, View(o.value, k))
  {
    AllInRange(db, users, policies);
    TurnsView(db, Turns(users, policies), today, k);
    ViewInYear(db, k);
    TurnsReach(db, users, policies, today, k);
  }

  // So a missing allocation is there after the run exactly when a listed policy reaches it.
  lemma RunOpensExactly(db: Db, users: seq<nat>, policies: seq<nat>, today: Date, user: nat, typ: nat)
    requires Inv(db) && !HasKey(db.allocations, Key(user, typ, Year(today)))
    requires forall u :: u in users ==> u < |db.users|
    requires forall p :: p in policies ==> p < |db.policies|
    ensures var o := RunAccruals(db, users, policies, today);
            && o.Success?
            && (HasKey(o.value.allocations, Key(user, typ, Year(today))) <==>
                  user in users
                  && exists q :: q in policies && db.policies[q].typ == typ && db.policies[q].frequency != Manual
                                 && (db.policies[q].designation == None
                                     || db.policies[q].designation == db.users[user].designation))
  {
    var k := Key(user, typ, Year(today));
    RunReaches(db, users, policies, today, k);
    var d := RunAccruals(db, users, policies, today).value;
    assert UniqueKeys(d.allocations) by { TakeTurnsKeepsInv(db, Turns(users, policies), today); }
    assert View(d, k).Some? <==> HasKey(d.allocations, k);
    if user in users && exists q :: q in policies && db.policies[q].typ == typ && db.policies[q].frequency != Manual
                                    && (db.policies[q].designation == None
                                        || db.policies[q].designation == db.users[user].designation) {
      var q :| q in policies && db.policies[q].typ == typ && db.policies[q].frequency != Manual
               && (db.policies[q].designation == None || db.policies[q].designation == db.users[user].designation);
      assert ReachedBy(db, users, policies, today, k, q);
    }
  }

  // Policies for other designations leave a user's allocations alone.
  lemma OtherDesignationsAreUntouched(db: Db, users: seq<nat>, policies: seq<nat>, today: Date, k: Key)
    requires Inv(db) && k.user < |db.users|
    requires forall u :: u in users ==> u < |db.users|
    requires forall p :: p in policies ==> p < |db.policies|
    requires forall p :: p in policies && db.policies[p].typ == k.typ ==>
               db.policies[p].designation.Some? && db.policies[p].designation != db.users[k.user].designation
    ensures RunAccruals(db, users, policies, today).Success?
    ensures View(RunAccruals(db, users, policies, today).value, k) == View(db, k)
  {
    RunReaches(db, users, policies, today, k);
  }

  // --- Entries of a run -------------------------------------------------------

  // The log after a run is the log before it followed by accruals of its date.
  ghost predicate AccruedOn(a: seq<AuditEntry>, b: seq<AuditEntry>, today: Date) {
    a <= b && forall e :: |a| <= e < |b| ==> b[e].PeriodicAccrual? && b[e].date == today
  }

  lemma {:induction false} RunAppendsAccruals(db: Db, ts: seq<Turn>, today: Date)
    ensures AccruedOn(db.audit, Commit(db, TakeTurns(db, ts, today)).audit, today)
  {
    if ts != [] {
      RunAppendsAccruals(db, ts[..|ts| - 1], today);
    }
  }

  lemma {:induction false} AccrualsOfExtended(a: seq<AuditEntry>, b: seq<AuditEntry>, i: nat, today: Date)
    requires AccruedOn(a, b, today)
    ensures AccruedOn(AccrualsOf(a, i), AccrualsOf(b, i), today)
    decreases |b|
  {
    if |a| < |b| {
      AccrualsOfExtended(a, b[..|b| - 1], i, today);
    } else {
      assert a == b;
    }
  }

  // Within one run an allocation accrues at most once, even when a designation policy and
  // the global policy both match.
  lemma OneAccrualPerAllocation(db: Db, ts: seq<Turn>, today: Date, i: nat)
    requires Inv(db) && i < |Commit(db, TakeTurns(db, ts, today)).allocations|
    ensures |AccrualsOf(Commit(db, TakeTurns(db, ts, today)).audit, i)| <= |AccrualsOf(db.audit, i)| + 1
  {
    var d := Commit(db, TakeTurns(db, ts, today));
    TakeTurnsKeepsInv(db, ts, today);
    RunAppendsAccruals(db, ts, today);
    AccrualsOfExtended(db.audit, d.audit, i, today);
    var h, n := AccrualsOf(d.audit, i), |AccrualsOf(db.audit, i)|;
    assert AccrualHistory(h, d.allocations[i]);
    assert |h| > n + 1 ==> !LaterPeriod(h[n + 1].frequency, h[n].date, h[n + 1].date);
  }

  // --- How often an allocation accrues ----------------------------------------

  function Coarseness(f: Frequency): nat {
    match f
    case Monthly => 0
    case Quarterly => 1
    case HalfYearly => 2
    case Yearly => 3
    case Manual => 4
  }

  // How many periods of a frequency a year has.
  function PeriodsPerYear(f: Frequency): nat {
    match f
    case Monthly => 12
    case Quarterly => 4
    case HalfYearly => 2
    case Yearly => 1
    case Manual => 1
  }

  // A later period of a coarser frequency is a later period of a finer one.
  lemma CoarserIsLater(f: Frequency, g: Frequency, a: Date, b: Date)
    requires Coarseness(g) <= Coarseness(f) && LaterPeriod(f, a, b)
    ensures LaterPeriod(g, a, b)
  {
  }

  lemma {:induction false} HistoryIsShort(h: seq<AuditEntry>, g: Frequency)
    requires forall j :: 0 <= j < |h| ==> h[j].PeriodicAccrual? && Coarseness(g) <= Coarseness(h[j].frequency)
    requires forall j :: 0 < j < |h| ==> LaterPeriod(h[j].frequency, h[j - 1].date, h[j].date)
    ensures h != [] ==> |h| <= Period(g, Month(h[|h| - 1].date)) + 1
    ensures |h| <= PeriodsPerYear(g)
  {
    if |h| > 1 {
      var last := |h| - 1;
      HistoryIsShort(h[..last], g);
      CoarserIsLater(h[last].frequency, g, h[last - 1].date, h[last].date);
    }
  }

  // At most twelve accruals, in the allocation's year, each in a later month; fewer when all
  // are coarser.
  ghost predicate Bounded(h: seq<AuditEntry>, a: Allocation, g: Frequency)
    requires forall j :: 0 <= j < |h| ==> h[j].PeriodicAccrual?
  {
    && a.lastAccrual == (if h == [] then None else Some(h[|h| - 1].date))
    && (forall j :: 0 <= j < |h| ==> Year(h[j].date) == a.key.year)
    && (forall j :: 0 < j < |h| ==> Month(h[j - 1].date) < Month(h[j].date))
    && |h| <= 12
    && ((forall j :: 0 <= j < |h| ==> Coarseness(g) <= Coarseness(h[j].frequency)) ==> |h| <= PeriodsPerYear(g))
  }

  lemma HistoryIsBounded(h: seq<AuditEntry>, a: Allocation, g: Frequency)
    requires forall j :: 0 <= j < |h| ==> h[j].PeriodicAccrual?
    requires AccrualHistory(h, a)
    ensures Bounded(h, a, g)
  {
    HistoryIsShort(h, Monthly);
    if forall j :: 0 <= j < |h| ==> Coarseness(g) <= Coarseness(h[j].frequency) {
      HistoryIsShort(h, g);
    }
    forall j | 0 < j < |h|
      ensures Month(h[j - 1].date) < Month(h[j].date)
    {
      CoarserIsLater(h[j].frequency, Monthly, h[j - 1].date, h[j].date);
    }
  }

  // However runs, single turns and every other operation interleave, and whatever policies
  // the turns carry, one allocation accrues at most 12 times, each time in a later month of
  // its own year, the last being its accrual date; at most 4, 2 or 1 times when all its
  // accruals are at least that coarse.
  lemma AccrualsAreBounded(db: Db, evs: seq<Event>, i: nat, g: Frequency)
    requires Initial(db) && i < |Run(db, evs).allocations|
    ensures Bounded(AccrualsOf(Run(db, evs).audit, i), Run(db, evs).allocations[i], g)
  {
    var now := Run(db, evs);
    assert AccrualHistory(AccrualsOf(now.audit, i), now.allocations[i]) by { ReachableInv(db, evs); }
    HistoryIsBounded(AccrualsOf(now.audit, i), now.allocations[i], g);
  }
}
