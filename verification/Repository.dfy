/** The selections of app/modules/leaves/repository.py. */
module Repository {
  import opened Wrappers
  import opened Calendar
  import opened Records
  import opened WorkingDays

  // The ids of the rows that satisfy p, in table order.
  function SelectRows<T>(rows: seq<T>, p: T -> bool): (sel: seq<nat>)
    ensures forall r: nat :: r in sel <==> r < |rows| && p(rows[r])
    ensures forall i, j :: 0 <= i < j < |sel| ==> sel[i] < sel[j]
  {
    if rows == [] then []
    else
      var last := |rows| - 1;
      var sel := SelectRows(rows[..last], p);
      assert forall i :: 0 <= i < |sel| ==> sel[i] in sel;
      if p(rows[last]) then sel + [last] else sel
  }

  // What `scalar_one_or_none` makes of a selection; ManyRows is its MultipleResultsFound.
  datatype Lookup = NoRow | Row(id: nat) | ManyRows

  function ScalarOneOrNone(sel: seq<nat>): Lookup {
    if |sel| == 0 then NoRow else if |sel| == 1 then Row(sel[0]) else ManyRows
  }

  predicate HasKey(allocations: seq<Allocation>, k: Key) {
    exists i :: 0 <= i < |allocations| && allocations[i].key == k
  }

  // get_allocation_for_type
  function FindAllocation(allocations: seq<Allocation>, k: Key): (l: Lookup)
    ensures l == NoRow <==> !HasKey(allocations, k)
    ensures l.Row? ==> l.id < |allocations| && allocations[l.id].key == k
    ensures l.Row? ==> forall i :: 0 <= i < |allocations| && allocations[i].key == k ==> i == l.id
    ensures l == ManyRows ==>
              exists i, j :: 0 <= i < j < |allocations| && allocations[i].key == allocations[j].key == k
  {
    var sel := SelectRows(allocations, (a: Allocation) => a.key == k);
    assert forall i :: 0 <= i < |allocations| && allocations[i].key == k ==> i in sel;
    assert forall r :: r in sel ==> allocations[r].key == k;
    assert |sel| >= 1 ==> sel[0] in sel;
    assert |sel| >= 2 ==> sel[0] < sel[1] && sel[1] in sel;
    ScalarOneOrNone(sel)
  }

  predicate Covers(start: Date, end: Date, d: Date) { start <= d <= end }

  // The `where` clause of get_overlapping_requests, disjunct by disjunct.
  predicate OverlapClause(r: Request, start: Date, end: Date) {
    || start <= r.start <= end
    || start <= r.end <= end
    || (r.start <= start && end <= r.end)
  }

  predicate InConflict(r: Request, user: nat, start: Date, end: Date) {
    r.user == user && r.status in {Pending, Approved} && OverlapClause(r, start, end)
  }

  function OverlappingRequests(requests: seq<Request>, user: nat, start: Date, end: Date): (sel: seq<nat>)
    ensures forall r: nat :: r in sel <==> r < |requests| && InConflict(requests[r], user, start, end)
  {
    SelectRows(requests, (r: Request) => InConflict(r, user, start, end))
  }

  // The three disjuncts together say that some date lies in both periods.
  lemma OverlapClauseIsIntersection(r: Request, start: Date, end: Date)
    requires r.start <= r.end && start <= end
    ensures OverlapClause(r, start, end) <==>
            exists d: Date :: Covers(r.start, r.end, d) && Covers(start, end, d)
  {
    if OverlapClause(r, start, end) {
      var d := if start <= r.start then r.start else start;
      assert Covers(r.start, r.end, d) && Covers(start, end, d);
    }
  }

  // get_company_holidays, as the set of dates apply_leave makes of it
  function HolidaysOfYear(holidays: seq<Date>, year: int): set<Date> {
    OfYear((set h | h in holidays), year)
  }

  predicate Governs(p: Policy, typ: nat, designation: Option<nat>) {
    p.typ == typ && p.active && p.designation == designation
  }

  // get_policy_by_designation_and_type
  function FindPolicy(policies: seq<Policy>, typ: nat, designation: Option<nat>): (l: Lookup)
    ensures l == NoRow <==> forall i :: 0 <= i < |policies| ==> !Governs(policies[i], typ, designation)
    ensures l.Row? ==> l.id < |policies| && Governs(policies[l.id], typ, designation)
    ensures l.Row? ==>
              forall i :: 0 <= i < |policies| && Governs(policies[i], typ, designation) ==> i == l.id
    ensures l == ManyRows ==>
              exists i, j :: 0 <= i < j < |policies| && Governs(policies[i], typ, designation)
                             && Governs(policies[j], typ, designation)
  {
    var sel := SelectRows(policies, (p: Policy) => Governs(p, typ, designation));
    assert forall i :: 0 <= i < |policies| && Governs(policies[i], typ, designation) ==> i in sel;
    assert forall r :: r in sel ==> Governs(policies[r], typ, designation);
    assert |sel| >= 1 ==> sel[0] in sel;
    assert |sel| >= 2 ==> sel[0] < sel[1] && sel[1] in sel;
    ScalarOneOrNone(sel)
  }

  // get_active_accrual_policies
  function ActivePolicies(policies: seq<Policy>): (sel: seq<nat>)
    ensures forall p: nat :: p in sel <==> p < |policies| && policies[p].active
  {
    SelectRows(policies, (p: Policy) => p.active)
  }

  // get_active_users
  function ActiveUsers(users: seq<User>): (sel: seq<nat>)
    ensures forall u: nat :: u in sel <==> u < |users| && users[u].active
  {
    SelectRows(users, (u: User) => u.active)
  }

  // The last row for k.
  function LastRow(allocations: seq<Allocation>, k: Key): (r: nat)
    requires HasKey(allocations, k)
    ensures r < |allocations| && allocations[r].key == k
  {
    var last := |allocations| - 1;
    if allocations[last].key == k then last
    else
      assert HasKey(allocations[..last], k) by {
        var i :| 0 <= i < |allocations| && allocations[i].key == k;
        assert allocations[..last][i].key == k;
      }
      LastRow(allocations[..last], k)
  }

  // One more row: it becomes the last one for its key.
  lemma LastRowAppend(allocations: seq<Allocation>, a: Allocation, k: Key)
    ensures HasKey(allocations + [a], k) <==> HasKey(allocations, k) || a.key == k
    ensures HasKey(allocations + [a], k) ==>
              LastRow(allocations + [a], k) == if a.key == k then |allocations| else LastRow(allocations, k)
  {
    assert (allocations + [a])[..|allocations|] == allocations;
    if HasKey(allocations, k) {
      var i :| 0 <= i < |allocations| && allocations[i].key == k;
      assert (allocations + [a])[i].key == k;
    }
    if a.key == k {
      assert (allocations + [a])[|allocations|].key == k;
    }
  }
}
