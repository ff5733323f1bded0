/** Order independence of a run, and the closed form of many runs. */
module AccrualTheorems {
  import opened Wrappers
  import opened Calendar
  import opened WorkingDays
  import opened Records
  import opened Ledger
  import opened LedgerInvariant
  import opened LedgerRuns
  import opened Lifecycle
  import opened AllocationViews
  import opened AccrualRuns

  // --- One allocation through a run -------------------------------------------

  // Every turn that hits k carries policy p.
  ghost predicate OnlyPolicy(db: Db, ts: seq<Turn>, today: Date, k: Key, p: Policy) {
    forall t :: t in ts && Hits(db, t, today, k) ==> db.policies[t.policy] == p
  }

  // If one policy governs k, a run does to k what one turn does, wherever in the run the
  // turn comes; and nothing if no turn hits it.
  lemma SinglePolicyView(db: Db, ts: seq<Turn>, today: Date, k: Key, p: Policy)
    requires Inv(db) && InRange(db, ts) && OnlyPolicy(db, ts, today, k, p)
    ensures TakeTurns(db, ts, today).Success?
    ensures View(TakeTurns(db, ts, today).value, k) ==
            if HitBy(db, ts, today, k) then Some(Accrue(OrFresh(View(db, k), k), p, today))
            else View(db, k)
  {
    TurnsView(db, ts, today, k);
    FirstDueIsDue(db, ts, today, k);
  }

  // --- Order independence -----------------------------------------------------

  // No two turns hit one allocation under different policies: no user and leave type is
  // matched by two active non-manual policies.
  ghost predicate SingleMatch(db: Db, ts: seq<Turn>, today: Date) {
    forall s, t, k :: s in ts && t in ts && Hits(db, s, today, k) && Hits(db, t, today, k) ==> s == t
  }

  // The turn would accrue if it came first.
  ghost predicate Due(db: Db, t: Turn, today: Date) {
    exists k :: Hits(db, t, today, k)
                && ShouldAccrue(db.policies[t.policy].frequency, OrFresh(View(db, k), k).lastAccrual, today)
  }

  ghost function DueTurns(db: Db, ts: seq<Turn>, today: Date): set<Turn> {
    set t | t in ts && Due(db, t, today)
  }

  lemma TurnCounts(db: Db, t: Turn, today: Date)
    requires UniqueKeys(db.allocations) && References(db) && t.user < |db.users| && t.policy < |db.policies|
    ensures TakeTurn(db, t, today).Success?
    ensures |TakeTurn(db, t, today).value.audit| == |db.audit| + if Due(db, t, today) then 1 else 0
  {
    var p := db.policies[t.policy];
    var k := Key(t.user, p.typ, Year(today));
    if Targets(p, db.users[t.user].designation) {
      assert Hits(db, t, today, k);
    }
  }

  // Before its turn, an allocation is as the run found it.
  lemma DueAsFound(db: Db, before: seq<Turn>, t: Turn, today: Date)
    requires Inv(db) && InRange(db, before) && t.user < |db.users| && t.policy < |db.policies| && t !in before
    requires SingleMatch(db, before + [t], today)
    ensures TakeTurns(db, before, today).Success?
    ensures Due(TakeTurns(db, before, today).value, t, today) <==> Due(db, t, today)
  {
    TurnsSucceed(db, before, today);
    TakeTurnsOnlyAccrue(db, before, today);
    var b := TakeTurns(db, before, today).value;
    var k := Key(t.user, db.policies[t.policy].typ, Year(today));
    assert t in before + [t] && forall s :: s in before ==> s in before + [t];
    if Hits(db, t, today, k) {
      SinglePolicyView(db, before, today, k, db.policies[t.policy]);
      assert Hits(b, t, today, k);
    }
  }

  lemma LastTurnCounts(db: Db, before: seq<Turn>, t: Turn, today: Date)
    requires Inv(db) && InRange(db, before + [t]) && SingleMatch(db, before + [t], today) && t in before + [t]
    requires InRange(db, before) && TakeTurns(db, before, today).Success?
    ensures var b := TakeTurns(db, before, today).value;
            var d := TakeTurn(b, t, today);
            && d.Success?
            && |d.value.audit| - |b.audit| == if t !in before && Due(db, t, today) then 1 else 0
  {
    var b := TakeTurns(db, before, today).value;
    assert UniqueKeys(b.allocations) && References(b) by { TakeTurnsKeepsInv(db, before, today); }
    TakeTurnsOnlyAccrue(db, before, today);
    if t in before {
      TurnsSettle(db, before, today, t);
      SettledTurnIsIdle(b, t, today);
    } else {
      TurnCounts(b, t, today);
      DueAsFound(db, before, t, today);
    }
  }

  lemma DueTurnsExtend(db: Db, before: seq<Turn>, t: Turn, today: Date)
    ensures |DueTurns(db, before + [t], today)| ==
            |DueTurns(db, before, today)| + if t !in before && Due(db, t, today) then 1 else 0
  {
    var due := DueTurns(db, before, today);
    var more := if Due(db, t, today) then {t} else {};
    forall s
      ensures s in DueTurns(db, before + [t], today) <==> s in due + more
    {
      InAppend(before, [t], s);
    }
    assert DueTurns(db, before + [t], today) == due + more;
    assert t in due <==> t in before && Due(db, t, today);
    assert t in due ==> due + {t} == due;
  }

  // The count of a run is the number of turns due when it started.
  lemma {:induction false} RunCounts(db: Db, ts: seq<Turn>, today: Date)
    requires Inv(db) && InRange(db, ts) && SingleMatch(db, ts, today)
    ensures TakeTurns(db, ts, today).Success?
    ensures |TakeTurns(db, ts, today).value.audit| == |db.audit| + |DueTurns(db, ts, today)|
  {
    if ts == [] {
      assert DueTurns(db, ts, today) == {};
    } else {
      var before, t := ts[..|ts| - 1], ts[|ts| - 1];
      assert ts == before + [t] && t in ts;
      RunCounts(db, before, today);
      LastTurnCounts(db, before, t, today);
      DueTurnsExtend(db, before, t, today);
    }
  }

  ghost predicate SameElements(a: seq<nat>, b: seq<nat>) {
    forall x :: x in a <==> x in b
  }

  lemma SameTurns(db: Db, users: seq<nat>, policies: seq<nat>, users2: seq<nat>, policies2: seq<nat>, t: Turn)
    requires SameElements(users, users2) && SameElements(policies, policies2)
    ensures t in Turns(users, policies) <==> t in Turns(users2, policies2)
  {
    TurnsAreAllPairs(users, policies, t);
    TurnsAreAllPairs(users2, policies2, t);
  }

  lemma SameView(db: Db, ts: seq<Turn>, ts2: seq<Turn>, today: Date, k: Key)
    requires Inv(db) && InRange(db, ts) && InRange(db, ts2) && SingleMatch(db, ts, today)
    requires forall t :: t in ts <==> t in ts2
    ensures TakeTurns(db, ts, today).Success? && TakeTurns(db, ts2, today).Success?
    ensures View(TakeTurns(db, ts, today).value, k) == View(TakeTurns(db, ts2, today).value, k)
  {
    TurnsSucceed(db, ts, today);
    TurnsSucceed(db, ts2, today);
    var p: Policy := *;
    if HitBy(db, ts, today, k) {
      var t :| t in ts && Hits(db, t, today, k);
      p := db.policies[t.policy];
    }
    SinglePolicyView(db, ts, today, k, p);
    SinglePolicyView(db, ts2, today, k, p);
  }

  // The queries return users and policies in no particular order.  When no user and leave
  // type is matched by two active non-manual policies, every order gives every user, leave
  // type and year the same allocation, the same returned count, and the same other tables.
  lemma RunIsOrderIndependent(db: Db, users: seq<nat>, policies: seq<nat>,
                              users2: seq<nat>, policies2: seq<nat>, today: Date)
    requires Inv(db)
    requires forall u :: u in users ==> u < |db.users|
    requires forall p :: p in policies ==> p < |db.policies|
    requires SameElements(users, users2) && SameElements(policies, policies2)
    requires SingleMatch(db, Turns(users, policies), today)
    ensures var a, b := RunAccruals(db, users, policies, today), RunAccruals(db, users2, policies2, today);
            && a.Success? && b.Success?
            && (forall k :: View(a.value, k) == View(b.value, k))
            && |a.value.audit| == |b.value.audit|
            && a.value == b.value.(allocations := a.value.allocations, audit := a.value.audit)
  {
    var ts, ts2 := Turns(users, policies), Turns(users2, policies2);
    forall t
      ensures t in ts <==> t in ts2
    {
      SameTurns(db, users, policies, users2, policies2, t);
    }
    AllInRange(db, users, policies);
    RunCounts(db, ts, today);
    RunCounts(db, ts2, today);
    assert DueTurns(db, ts, today) == DueTurns(db, ts2, today);
    TakeTurnsOnlyAccrue(db, ts, today);
    TakeTurnsOnlyAccrue(db, ts2, today);
    forall k
      ensures View(RunAccruals(db, users, policies, today).value, k) ==
              View(RunAccruals(db, users2, policies2, today).value, k)
    {
      SameView(db, ts, ts2, today, k);
    }
  }

  // --- Closed form ------------------------------------------------------------

  ghost function PeriodsOf(f: Frequency, dates: seq<Date>): (ps: seq<int>)
    ensures |ps| == |dates| && forall i :: 0 <= i < |dates| ==> ps[i] == Period(f, Month(dates[i]))
  {
    if dates == [] then []
    else PeriodsOf(f, dates[..|dates| - 1]) + [Period(f, Month(dates[|dates| - 1]))]
  }

  // The i-th period is later than every period before it, and than the period `floor`
  // already served (-1 when nothing was): a strict left-to-right maximum.
  ghost predicate IsMaximum(floor: int, ps: seq<int>, i: nat) {
    i < |ps| && floor < ps[i] && forall j :: 0 <= j < i ==> ps[j] < ps[i]
  }

  ghost function Maxima(floor: int, ps: seq<int>): set<nat> {
    set i: nat | i < |ps| && IsMaximum(floor, ps, i)
  }

  // The latest period served.
  ghost function Latest(floor: int, ps: seq<int>): int {
    if ps == [] then floor else Max(Latest(floor, ps[..|ps| - 1]), ps[|ps| - 1])
  }

  lemma {:induction false} LatestIsMaximum(floor: int, ps: seq<int>)
    ensures var m := Latest(floor, ps);
            floor <= m && (forall j :: 0 <= j < |ps| ==> ps[j] <= m) && (m == floor || m in ps)
  {
    if ps != [] {
      LatestIsMaximum(floor, ps[..|ps| - 1]);
      assert forall j :: 0 <= j < |ps| - 1 ==> ps[j] == ps[..|ps| - 1][j];
    }
  }

  lemma MaximaExtend(floor: int, ps: seq<int>, x: int)
    ensures Maxima(floor, ps + [x]) ==
            if Latest(floor, ps) < x then Maxima(floor, ps) + {|ps|} else Maxima(floor, ps)
  {
    LatestIsMaximum(floor, ps);
    forall i: nat | i < |ps|
      ensures IsMaximum(floor, ps + [x], i) <==> IsMaximum(floor, ps, i)
    {
      assert (ps + [x])[..i] == ps[..i];
    }
    assert IsMaximum(floor, ps + [x], |ps|) <==> Latest(floor, ps) < x by {
      assert forall j :: 0 <= j < |ps| ==> (ps + [x])[j] == ps[j];
    }
  }

  ghost function Served(f: Frequency, last: Option<Date>): int {
    match last
    case None => -1
    case Some(l) => Period(f, Month(l))
  }

  ghost function AccrueAll(a: Allocation, p: Policy, dates: seq<Date>): Allocation {
    if dates == [] then a else Accrue(AccrueAll(a, p, dates[..|dates| - 1]), p, dates[|dates| - 1])
  }

  ghost function Capped(days: int, p: Policy): int {
    match p.maxQuota
    case None => days
    case Some(q) => Min(q, days)
  }

  ghost predicate InYear(dates: seq<Date>, y: int) {
    forall i :: 0 <= i < |dates| ==> Year(dates[i]) == y
  }

  lemma AccrueServes(a: Allocation, p: Policy, today: Date)
    requires p.frequency != Manual && LastInYear(a, Year(today))
    ensures var due := Served(p.frequency, a.lastAccrual) < Period(p.frequency, Month(today));
            var b := Accrue(a, p, today);
            && Served(p.frequency, b.lastAccrual) ==
               Max(Served(p.frequency, a.lastAccrual), Period(p.frequency, Month(today)))
            && b.allocatedDays == (if due then Accrued(a.allocatedDays, p) else a.allocatedDays)
            && LastInYear(b, Year(today))
  {
  }

  // The balance after n accruals.
  ghost function AfterAccruals(days: int, n: nat, p: Policy): int {
    if n == 0 then days else Capped(days + n * p.rate, p)
  }

  // An allocation that started at `days` has accrued as the periods ps say.
  ghost predicate InForm(a: Allocation, p: Policy, days: int, floor: int, ps: seq<int>) {
    && a.allocatedDays == AfterAccruals(days, |Maxima(floor, ps)|, p)
    && Served(p.frequency, a.lastAccrual) == Latest(floor, ps)
  }

  lemma FormExtends(a: Allocation, b: Allocation, p: Policy, days: int, floor: int, ps: seq<int>, x: int)
    requires p.rate > 0 && InForm(a, p, days, floor, ps)
    requires Served(p.frequency, b.lastAccrual) == Max(Served(p.frequency, a.lastAccrual), x)
    requires b.allocatedDays ==
             if Served(p.frequency, a.lastAccrual) < x then Accrued(a.allocatedDays, p) else a.allocatedDays
    ensures InForm(b, p, days, floor, ps + [x])
  {
    assert |Maxima(floor, ps + [x])| == |Maxima(floor, ps)| + if Latest(floor, ps) < x then 1 else 0 by {
      MaximaExtend(floor, ps, x);
    }
    assert (ps + [x])[..|ps|] == ps;
    CapOnce(days, |Maxima(floor, ps)|, p);
  }

  lemma AccrueKeepsForm(a: Allocation, p: Policy, today: Date, days: int, floor: int, ps: seq<int>)
    requires p.frequency != Manual && p.rate > 0 && LastInYear(a, Year(today))
    requires InForm(a, p, days, floor, ps)
    ensures InForm(Accrue(a, p, today), p, days, floor, ps + [Period(p.frequency, Month(today))])
    ensures LastInYear(Accrue(a, p, today), Year(today))
  {
    AccrueServes(a, p, today);
    FormExtends(a, Accrue(a, p, today), p, days, floor, ps, Period(p.frequency, Month(today)));
  }

  // After any dates of one year, in any order and with repeats, the balance is the opening
  // balance plus one rate for each period that is a strict maximum so far, capped once; and
  // untouched if there is none.
  lemma {:induction false} AccrueAllClosedForm(a: Allocation, p: Policy, dates: seq<Date>, y: int)
    requires p.frequency != Manual && p.rate > 0 && InYear(dates, y) && LastInYear(a, y)
    ensures InForm(AccrueAll(a, p, dates), p, a.allocatedDays, Served(p.frequency, a.lastAccrual),
                   PeriodsOf(p.frequency, dates))
    ensures LastInYear(AccrueAll(a, p, dates), y)
  {
    var floor := Served(p.frequency, a.lastAccrual);
    if dates == [] {
      assert Maxima(floor, []) == {};
    } else {
      var last := |dates| - 1;
      AccrueAllClosedForm(a, p, dates[..last], y);
      AccrueKeepsForm(AccrueAll(a, p, dates[..last]), p, dates[last], a.allocatedDays, floor,
                      PeriodsOf(p.frequency, dates[..last]));
    }
  }

  lemma CapOnce(days: int, n: nat, p: Policy)
    requires p.rate > 0
    ensures Accrued(AfterAccruals(days, n, p), p) == AfterAccruals(days, n + 1, p)
  {
  }

  // --- The closed form in the system ------------------------------------------

  // The event is an accrual under policy pid, and no other, of its leave type for user in
  // year y: a run, or a single turn.
  ghost predicate Serves(db: Db, ev: Event, user: nat, pid: nat, y: int)
    requires user < |db.users| && pid < |db.policies|
  {
    || (&& ev.AccrualRun? && Year(ev.today) == y && user in ev.users && pid in ev.policies
        && (forall u :: u in ev.users ==> u < |db.users|)
        && (forall q :: q in ev.policies ==> q < |db.policies| && (q == pid || !Competes(db, q, user, pid))))
    || (&& ev.AccrualTurn? && Year(ev.today) == y && ev.user == user && ev.policy == db.policies[pid]
        && Targets(ev.policy, ev.designation))
  }

  // Policy q accrues the leave type of pid for user.
  ghost predicate Competes(db: Db, q: nat, user: nat, pid: nat)
    requires user < |db.users| && pid < |db.policies|
  {
    q < |db.policies| && db.policies[q].typ == db.policies[pid].typ && Targets(db.policies[q], db.users[user].designation)
  }

  // The event edits no user or policy, and neither grants nor accrues that leave type to user
  // for year y; applications, decisions, cancellations, look-ups and all else are open to it.
  ghost predicate LeavesAlone(db: Db, ev: Event, user: nat, pid: nat, y: int)
    requires user < |db.users| && pid < |db.policies|
  {
    && KeepsSettings(ev)
    && (ev.DaysGranted? ==> ev.user != user || ev.typ != db.policies[pid].typ || ev.year != y)
    && (ev.AccrualTurn? ==>
          ev.user != user || ev.policy.typ != db.policies[pid].typ || Year(ev.today) != y
          || !Targets(ev.policy, ev.designation))
    && (ev.AccrualRun? ==>
          Year(ev.today) != y || user !in ev.users || forall q :: q in ev.policies ==> !Competes(db, q, user, pid))
  }

  // The dates of the accruals among evs that serve the pair.
  ghost function ServingDates(db: Db, evs: seq<Event>, user: nat, pid: nat, y: int): (dates: seq<Date>)
    requires user < |db.users| && pid < |db.policies|
    ensures InYear(dates, y)
  {
    if evs == [] then []
    else
      var ev := evs[|evs| - 1];
      ServingDates(db, evs[..|evs| - 1], user, pid, y) + if Serves(db, ev, user, pid, y) then [ev.today] else []
  }

  lemma ServingTurns(db: Db, ev: Event, user: nat, pid: nat, y: int)
    requires user < |db.users| && pid < |db.policies| && Targets(db.policies[pid], db.users[user].designation)
    requires ev.AccrualRun? && Serves(db, ev, user, pid, y)
    ensures var ts := Turns(ev.users, ev.policies);
            var k := Key(user, db.policies[pid].typ, y);
            InRange(db, ts) && OnlyPolicy(db, ts, ev.today, k, db.policies[pid]) && HitBy(db, ts, ev.today, k)
  {
    var ts := Turns(ev.users, ev.policies);
    var k := Key(user, db.policies[pid].typ, y);
    AllInRange(db, ev.users, ev.policies);
    forall t | t in ts && Hits(db, t, ev.today, k)
      ensures db.policies[t.policy] == db.policies[pid]
    {
      TurnsAreAllPairs(ev.users, ev.policies, t);
    }
    TurnsAreAllPairs(ev.users, ev.policies, Turn(user, pid));
    assert Hits(db, Turn(user, pid), ev.today, k);
  }

  lemma ServedByRun(db: Db, ts: seq<Turn>, today: Date, k: Key, p: Policy)
    requires InRange(db, ts) && OnlyPolicy(db, ts, today, k, p) && HitBy(db, ts, today, k)
    ensures AfterTurns(db, ts, today, k) == Some(Accrue(OrFresh(View(db, k), k), p, today))
  {
    FirstDueIsDue(db, ts, today, k);
  }

  lemma ServedByTurn(db: Db, ev: Event, k: Key)
    requires ev.AccrualTurn? && Targets(ev.policy, ev.designation) && k == Key(ev.user, ev.policy.typ, Year(ev.today))
    requires k.user < |db.users| && k.typ < |db.types|
    ensures ViewAfter(db, ev, k) == Some(Accrue(OrFresh(View(db, k), k), ev.policy, ev.today))
  {
  }

  lemma ServedView(db: Db, ev: Event, user: nat, pid: nat, y: int)
    requires References(db) && user < |db.users| && pid < |db.policies|
    requires Targets(db.policies[pid], db.users[user].designation) && Serves(db, ev, user, pid, y)
    ensures var k := Key(user, db.policies[pid].typ, y);
            ViewAfter(db, ev, k) == Some(Accrue(OrFresh(View(db, k), k), db.policies[pid], ev.today))
  {
    var k := Key(user, db.policies[pid].typ, y);
    if ev.AccrualRun? {
      ServingTurns(db, ev, user, pid, y);
      ServedByRun(db, Turns(ev.users, ev.policies), ev.today, k, db.policies[pid]);
    } else {
      ServedByTurn(db, ev, k);
    }
  }

  lemma NotHit(db: Db, ev: Event, user: nat, pid: nat, y: int)
    requires user < |db.users| && pid < |db.policies| && ev.AccrualRun? && LeavesAlone(db, ev, user, pid, y)
    ensures !HitBy(db, Turns(ev.users, ev.policies), ev.today, Key(user, db.policies[pid].typ, y))
  {
    var ts := Turns(ev.users, ev.policies);
    forall t | t in ts
      ensures !Hits(db, t, ev.today, Key(user, db.policies[pid].typ, y))
    {
      TurnsAreAllPairs(ev.users, ev.policies, t);
    }
  }

  // Same allocated days and accrual date, or opened by a look-up.
  lemma LeftAloneView(db: Db, ev: Event, user: nat, pid: nat, y: int)
    requires user < |db.users| && pid < |db.policies| && LeavesAlone(db, ev, user, pid, y)
    ensures var k := Key(user, db.policies[pid].typ, y);
            var a, b := View(db, k), ViewAfter(db, ev, k);
            && (a.Some? ==> b.Some? && b.value.allocatedDays == a.value.allocatedDays
                            && b.value.lastAccrual == a.value.lastAccrual)
            && (a.None? && b.Some? ==> b.value.allocatedDays == OpensWith(db, ev, k) && b.value.lastAccrual == None)
  {
    if ev.AccrualRun? {
      NotHit(db, ev, user, pid, y);
    }
  }

  // The allocation, if it is there, has accrued as the periods ps say; until it is, none did.
  ghost predicate ViewInForm(a: Option<Allocation>, p: Policy, days: int, floor: int, ps: seq<int>, y: int) {
    if a.Some? then InForm(a.value, p, days, floor, ps) && LastInYear(a.value, y) else ps == [] && floor == -1
  }

  lemma ServedKeepsForm(a: Option<Allocation>, k: Key, p: Policy, today: Date, days: int, floor: int, ps: seq<int>)
    requires p.frequency != Manual && p.rate > 0 && Year(today) == k.year
    requires ViewInForm(a, p, days, floor, ps, k.year)
    ensures ViewInForm(Some(Accrue(OrFresh(a, k), p, today)), p, if a.Some? then days else 0, floor,
                       ps + [Period(p.frequency, Month(today))], k.year)
  {
    assert Maxima(floor, []) == {};
    AccrueKeepsForm(OrFresh(a, k), p, today, if a.Some? then days else 0, floor, ps);
  }

  lemma NextFormServed(db: Db, ev: Event, user: nat, pid: nat, y: int, days: int, floor: int, ps: seq<int>)
    requires Inv(db) && user < |db.users| && pid < |db.policies|
    requires Targets(db.policies[pid], db.users[user].designation) && Serves(db, ev, user, pid, y)
    requires ViewInForm(View(db, Key(user, db.policies[pid].typ, y)), db.policies[pid], days, floor, ps, y)
    ensures var k := Key(user, db.policies[pid].typ, y);
            ViewInForm(View(Step(db, ev), k), db.policies[pid],
                       if View(db, k).Some? then days else OpensWith(db, ev, k), floor,
                       ps + [Period(db.policies[pid].frequency, Month(ev.today))], y)
  {
    var k := Key(user, db.policies[pid].typ, y);
    StepView(db, ev, k);
    ServedView(db, ev, user, pid, y);
    ServedKeepsForm(View(db, k), k, db.policies[pid], ev.today, days, floor, ps);
  }

  lemma NextFormLeftAlone(db: Db, ev: Event, user: nat, pid: nat, y: int, days: int, floor: int, ps: seq<int>)
    requires Inv(db) && user < |db.users| && pid < |db.policies| && LeavesAlone(db, ev, user, pid, y)
    requires ViewInForm(View(db, Key(user, db.policies[pid].typ, y)), db.policies[pid], days, floor, ps, y)
    ensures var k := Key(user, db.policies[pid].typ, y);
            ViewInForm(View(Step(db, ev), k), db.policies[pid],
                       if View(db, k).Some? then days else OpensWith(db, ev, k), floor, ps, y)
  {
    var k := Key(user, db.policies[pid].typ, y);
    StepView(db, ev, k);
    LeftAloneView(db, ev, user, pid, y);
    assert Maxima(floor, []) == {};
  }

  lemma PeriodsExtend(f: Frequency, dates: seq<Date>, today: Date)
    ensures PeriodsOf(f, dates + [today]) == PeriodsOf(f, dates) + [Period(f, Month(today))]
  {
  }

  lemma SameSettings(db: Db, b: Db, ev: Event, user: nat, pid: nat, y: int)
    requires b.users == db.users && b.policies == db.policies && user < |db.users| && pid < |db.policies|
    ensures Serves(b, ev, user, pid, y) == Serves(db, ev, user, pid, y)
    ensures LeavesAlone(b, ev, user, pid, y) == LeavesAlone(db, ev, user, pid, y)
  {
    assert forall q: nat :: Competes(b, q, user, pid) == Competes(db, q, user, pid);
  }

  lemma NextForm(db: Db, b: Db, ev: Event, user: nat, pid: nat, y: int, days: int, floor: int, dates: seq<Date>)
    requires Inv(b) && b.users == db.users && b.policies == db.policies && user < |db.users| && pid < |db.policies|
    requires Targets(db.policies[pid], db.users[user].designation)
    requires Serves(db, ev, user, pid, y) || LeavesAlone(db, ev, user, pid, y)
    requires ViewInForm(View(b, Key(user, db.policies[pid].typ, y)), db.policies[pid], days, floor,
                        PeriodsOf(db.policies[pid].frequency, dates), y)
    ensures var k := Key(user, db.policies[pid].typ, y);
            ViewInForm(View(Step(b, ev), k), db.policies[pid],
                       if View(b, k).Some? then days else OpensWith(b, ev, k), floor,
                       PeriodsOf(db.policies[pid].frequency,
                                 dates + if Serves(db, ev, user, pid, y) then [ev.today] else []), y)
  {
    var ps := PeriodsOf(db.policies[pid].frequency, dates);
    SameSettings(db, b, ev, user, pid, y);
    if Serves(db, ev, user, pid, y) {
      NextFormServed(b, ev, user, pid, y, days, floor, ps);
      PeriodsExtend(db.policies[pid].frequency, dates, ev.today);
    } else {
      NextFormLeftAlone(b, ev, user, pid, y, days, floor, ps);
      assert dates + [] == dates;
    }
  }

  // The events of a run are accruals that serve the pair, or leave it alone.
  ghost predicate OnlyServes(db: Db, evs: seq<Event>, user: nat, pid: nat, y: int)
    requires user < |db.users| && pid < |db.policies|
  {
    forall e :: 0 <= e < |evs| ==> Serves(db, evs[e], user, pid, y) || LeavesAlone(db, evs[e], user, pid, y)
  }

  lemma FormStarts(db: Db, k: Key, p: Policy)
    requires AccrualHistories(db.allocations, db.audit)
    ensures ViewInForm(View(db, k), p, OrFresh(View(db, k), k).allocatedDays,
                       Served(p.frequency, OrFresh(View(db, k), k).lastAccrual), [], k.year)
  {
    ViewInYear(db, k);
    assert Maxima(Served(p.frequency, OrFresh(View(db, k), k).lastAccrual), []) == {};
  }

  // The allocation of k after the run is in the form its accruals give it.
  ghost predicate RunInForm(db: Db, evs: seq<Event>, user: nat, pid: nat, y: int, p: Policy, k: Key)
    requires user < |db.users| && pid < |db.policies|
  {
    ViewInForm(View(Run(db, evs), k), p, Opened(db, evs, k),
               Served(p.frequency, OrFresh(View(db, k), k).lastAccrual),
               PeriodsOf(p.frequency, ServingDates(db, evs, user, pid, y)), y)
  }

  lemma FormNext(db: Db, evs: seq<Event>, user: nat, pid: nat, y: int, p: Policy, k: Key, b: Db)
    requires user < |db.users| && pid < |db.policies| && p == db.policies[pid] && k == Key(user, p.typ, y)
    requires Targets(p, db.users[user].designation) && OnlyServes(db, evs, user, pid, y) && evs != []
    requires b == Run(db, evs[..|evs| - 1]) && Inv(b) && b.users == db.users && b.policies == db.policies
    requires RunInForm(db, evs[..|evs| - 1], user, pid, y, p, k)
    ensures RunInForm(db, evs, user, pid, y, p, k)
  {
    NextForm(db, b, evs[|evs| - 1], user, pid, y, Opened(db, evs[..|evs| - 1], k),
             Served(p.frequency, OrFresh(View(db, k), k).lastAccrual),
             ServingDates(db, evs[..|evs| - 1], user, pid, y));
  }

  lemma ServingKeepsSettings(db: Db, evs: seq<Event>, user: nat, pid: nat, y: int)
    requires user < |db.users| && pid < |db.policies| && OnlyServes(db, evs, user, pid, y)
    ensures Run(db, evs).users == db.users && Run(db, evs).policies == db.policies
  {
    RunKeepsSettings(db, evs);
  }

  lemma FormAtStart(db: Db, user: nat, pid: nat, y: int, p: Policy, k: Key)
    requires Inv(db) && user < |db.users| && pid < |db.policies| && k == Key(user, p.typ, y)
    ensures RunInForm(db, [], user, pid, y, p, k)
  {
    FormStarts(db, k, p);
  }

  lemma {:induction false} FormOfRun(db: Db, evs: seq<Event>, user: nat, pid: nat, y: int, p: Policy, k: Key)
    requires Inv(db) && user < |db.users| && pid < |db.policies| && p == db.policies[pid] && k == Key(user, p.typ, y)
    requires Targets(p, db.users[user].designation) && OnlyServes(db, evs, user, pid, y)
    ensures RunInForm(db, evs, user, pid, y, p, k)
  {
    if evs == [] {
      FormAtStart(db, user, pid, y, p, k);
    } else {
      var before := evs[..|evs| - 1];
      FormOfRun(db, before, user, pid, y, p, k);
      ServingKeepsSettings(db, before, user, pid, y);
      RunKeepsInv(db, before);
      FormNext(db, evs, user, pid, y, p, k, Run(db, before));
    }
  }

  lemma FormMeans(a: Option<Allocation>, p: Policy, days: int, floor: int, dates: seq<Date>, y: int)
    requires ViewInForm(a, p, days, floor, PeriodsOf(p.frequency, dates), y)
    ensures dates != [] ==> a.Some?
    ensures a.Some? ==> a.value.allocatedDays == AfterAccruals(days, |Maxima(floor, PeriodsOf(p.frequency, dates))|, p)
  {
  }

  // The balance after any run in which one policy accrues the leave type for the user, in any
  // order of dates and of rows, between any other operations that neither grant these days
  // nor edit users or policies: n is the number of accruals whose period exceeds every period
  // served before, and the allocation starts from its days before the run, or from those it
  // was opened with.
  lemma AccrualClosedForm(db: Db, evs: seq<Event>, user: nat, pid: nat, y: int)
    requires Inv(db) && user < |db.users| && pid < |db.policies|
    requires Targets(db.policies[pid], db.users[user].designation) && OnlyServes(db, evs, user, pid, y)
    ensures var p := db.policies[pid];
            var k := Key(user, p.typ, y);
            var dates := ServingDates(db, evs, user, pid, y);
            var n := |Maxima(Served(p.frequency, OrFresh(View(db, k), k).lastAccrual), PeriodsOf(p.frequency, dates))|;
            var a := View(Run(db, evs), k);
            && (dates != [] ==> a.Some?)
            && (a.Some? ==> a.value.allocatedDays == AfterAccruals(Opened(db, evs, k), n, p))
  {
    var p := db.policies[pid];
    var k := Key(user, p.typ, y);
    FormOfRun(db, evs, user, pid, y, p, k);
    FormMeans(View(Run(db, evs), k), p, Opened(db, evs, k), Served(p.frequency, OrFresh(View(db, k), k).lastAccrual),
              ServingDates(db, evs, user, pid, y), y);
  }
}
