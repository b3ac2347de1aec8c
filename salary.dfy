/**
 * team_salary_report.py: the `Employees` table, the recursive query
 * `TeamHierarchy` that rolls every employee's team up to them, and the
 * validation of the data the service returns.
 *
 * The recursive step of the query joins an employee to the row of their
 * manager unless they manage themselves. On a manager relation with a cycle
 * through two or more employees that recursion never ends, so every member
 * below asks for a rank that grows strictly from report to manager.
 */
module TeamSalary {
  import opened Py
  import opened Remote

  /** A row of `Employees`; `ManagerID` may be NULL. */
  datatype Employee = Employee(id: int, salary: int, manager: Option<int>)

  /** `EmployeeID INTEGER PRIMARY KEY`: no two rows share an id. */
  predicate UniqueIds(emps: seq<Employee>) {
    forall i, j :: 0 <= i < j < |emps| ==> emps[i].id != emps[j].id
  }

  /** The join of the recursive step: `e.ManagerID = x` and `e.EmployeeID != e.ManagerID`. */
  predicate ReportsDirectlyTo(e: Employee, x: int) {
    e.manager == Some(x) && e.id != x
  }

  /** Every link the recursive step follows climbs in `rank`: the manager relation has no cycle but self-loops. */
  ghost predicate Ranked(emps: seq<Employee>, rank: map<int, nat>) {
    forall e :: e in emps ==>
      && e.id in rank
      && (e.manager.Some? && e.manager.value != e.id && e.manager.value in rank ==> rank[e.id] < rank[e.manager.value])
  }

  ghost predicate Table(emps: seq<Employee>, rank: map<int, nat>) {
    UniqueIds(emps) && Ranked(emps, rank)
  }

  lemma RankedMember(emps: seq<Employee>, rank: map<int, nat>, e: Employee)
    requires Ranked(emps, rank) && e in emps
    ensures e.id in rank
    ensures e.manager.Some? && e.manager.value != e.id && e.manager.value in rank ==>
      rank[e.id] < rank[e.manager.value]
  {
  }

  /** The rows the recursive step can join to the row of `x`, in table order. */
  function DirectReports(emps: seq<Employee>, x: int): (r: seq<Employee>)
    ensures forall e :: e in r <==> e in emps && ReportsDirectlyTo(e, x)
    ensures |r| <= |emps|
    ensures UniqueIds(emps) ==> UniqueIds(r)
  {
    if emps == [] then []
    else
      var rest := DirectReports(emps[1..], x);
      assert forall e :: e in emps[1..] ==> e in emps;
      if ReportsDirectlyTo(emps[0], x) then
        assert UniqueIds(emps) ==> forall e :: e in rest ==> e.id != emps[0].id;
        [emps[0]] + rest
      else rest
  }

  /**
   * The rows `TeamHierarchy` derives below `x`: for each direct report, that
   * report and, recursively, everything below them. `UNION ALL` keeps every
   * derivation, so this is a sequence, not a set.
   */
  function Below(emps: seq<Employee>, ghost rank: map<int, nat>, x: int): seq<Employee>
    requires Table(emps, rank) && x in rank
    decreases rank[x], |emps| + 1
  {
    BelowAll(emps, rank, x, DirectReports(emps, x))
  }

  function BelowAll(emps: seq<Employee>, ghost rank: map<int, nat>, x: int, ds: seq<Employee>): seq<Employee>
    requires Table(emps, rank) && x in rank
    requires forall d :: d in ds ==> d in emps && ReportsDirectlyTo(d, x)
    requires |ds| <= |emps|
    decreases rank[x], |ds|
  {
    if ds == [] then []
    else
      var d := ds[0];
      assert d in emps && ReportsDirectlyTo(d, x);
      RankedMember(emps, rank, d);
      assert d.manager.value == x;
      assert rank[d.id] < rank[x];
      [d] + Below(emps, rank, d.id) + BelowAll(emps, rank, x, ds[1..])
  }

  /** The rows of `TeamHierarchy` whose `RootEmployee` is `root`: the anchor row, then the recursion. */
  function TeamRows(emps: seq<Employee>, ghost rank: map<int, nat>, root: Employee): seq<Employee>
    requires Table(emps, rank) && root in emps
  {
    RankedMember(emps, rank, root);
    [root] + Below(emps, rank, root.id)
  }

  function SumSalaries(rows: seq<Employee>): int {
    if rows == [] then 0 else rows[0].salary + SumSalaries(rows[1..])
  }

  /** `SUM(Salary)` of the group of `root`. */
  function TotalTeamSalary(emps: seq<Employee>, ghost rank: map<int, nat>, root: Employee): int
    requires Table(emps, rank) && root in emps
  {
    SumSalaries(TeamRows(emps, rank, root))
  }

  // ---------------------------------------------------------------- transitive reports

  /**
   * `e` reports to `x` through one or more links the recursive step follows,
   * found by walking up from `e`: a manager ranked at or above `x` other than
   * `x` itself cannot lead to `x`, since ranks only grow going up.
   */
  ghost predicate Reaches(emps: seq<Employee>, rank: map<int, nat>, e: Employee, x: int)
    requires Table(emps, rank) && e in emps && x in rank
    decreases if rank[e.id] < rank[x] then rank[x] - rank[e.id] else 0
  {
    RankedMember(emps, rank, e);
    || ReportsDirectlyTo(e, x)
    || (&& e.manager.Some? && e.manager.value != e.id
        && exists k :: 0 <= k < |emps| && emps[k].id == e.manager.value && rank[emps[k].id] < rank[x]
                       && Reaches(emps, rank, emps[k], x))
  }

  lemma ReachesRank(emps: seq<Employee>, rank: map<int, nat>, e: Employee, x: int)
    requires Table(emps, rank) && e in emps && x in rank
    requires Reaches(emps, rank, e, x)
    ensures rank[e.id] < rank[x]
  {
    RankedMember(emps, rank, e);
  }

  /** Reporting to a direct report of `x` is reporting to `x`. */
  lemma {:induction false} ReachesThrough(emps: seq<Employee>, rank: map<int, nat>, e: Employee, d: Employee, x: int)
    requires Table(emps, rank) && e in emps && d in emps && x in rank
    requires ReportsDirectlyTo(d, x)
    requires e == d || Reaches(emps, rank, e, d.id)
    ensures Reaches(emps, rank, e, x)
    decreases if rank[e.id] < rank[x] then rank[x] - rank[e.id] else 0
  {
    RankedMember(emps, rank, e);
    RankedMember(emps, rank, d);
    if e != d {
      var kd :| 0 <= kd < |emps| && emps[kd] == d;
      if ReportsDirectlyTo(e, d.id) {
        assert emps[kd].id == e.manager.value && rank[emps[kd].id] < rank[x] && Reaches(emps, rank, emps[kd], x);
      } else {
        var k :| 0 <= k < |emps| && emps[k].id == e.manager.value && rank[emps[k].id] < rank[d.id]
                 && Reaches(emps, rank, emps[k], d.id);
        RankedMember(emps, rank, emps[k]);
        ReachesThrough(emps, rank, emps[k], d, x);
        ReachesRank(emps, rank, emps[k], x);
      }
    }
  }

  /** The direct report of `x` through whom `e` reports to `x`. */
  ghost function Via(emps: seq<Employee>, rank: map<int, nat>, e: Employee, x: int): (r: Employee)
    requires Table(emps, rank) && e in emps && x in rank
    requires Reaches(emps, rank, e, x)
    ensures r in emps && ReportsDirectlyTo(r, x)
    ensures r == e || Reaches(emps, rank, e, r.id)
    decreases if rank[e.id] < rank[x] then rank[x] - rank[e.id] else 0
  {
    RankedMember(emps, rank, e);
    if ReportsDirectlyTo(e, x) then e
    else
      var k :| 0 <= k < |emps| && emps[k].id == e.manager.value && rank[emps[k].id] < rank[x]
               && Reaches(emps, rank, emps[k], x);
      var r := Via(emps, rank, emps[k], x);
      RankedMember(emps, rank, r);
      assert r == emps[k] || Reaches(emps, rank, emps[k], r.id);
      if r == emps[k] then
        assert ReportsDirectlyTo(e, r.id);
        r
      else
        ReachesRank(emps, rank, emps[k], r.id);
        assert Reaches(emps, rank, e, r.id);
        r
  }

  /** Manager ids are unique, so the way up from `e` is unique too: only one direct report of `x` leads to `e`. */
  lemma {:induction false} ViaUnique(emps: seq<Employee>, rank: map<int, nat>, e: Employee, d: Employee, x: int)
    requires Table(emps, rank) && e in emps && d in emps && x in rank
    requires ReportsDirectlyTo(d, x)
    requires e == d || Reaches(emps, rank, e, d.id)
    ensures Reaches(emps, rank, e, x) && d == Via(emps, rank, e, x)
    decreases if rank[e.id] < rank[x] then rank[x] - rank[e.id] else 0
  {
    ReachesThrough(emps, rank, e, d, x);
    RankedMember(emps, rank, e);
    RankedMember(emps, rank, d);
    if ReportsDirectlyTo(e, x) {
      if e != d {
        assert false;
      }
    } else {
      var k :| 0 <= k < |emps| && emps[k].id == e.manager.value && rank[emps[k].id] < rank[x]
               && Reaches(emps, rank, emps[k], x);
      assert Via(emps, rank, e, x) == Via(emps, rank, emps[k], x);
      var kd :| 0 <= kd < |emps| && emps[kd] == d;
      if ReportsDirectlyTo(e, d.id) {
        assert emps[k] == d;
      } else {
        var k2 :| 0 <= k2 < |emps| && emps[k2].id == e.manager.value && rank[emps[k2].id] < rank[d.id]
                  && Reaches(emps, rank, emps[k2], d.id);
        assert k2 == k;
        RankedMember(emps, rank, emps[k]);
        ViaUnique(emps, rank, emps[k], d, x);
      }
    }
  }

  // ---------------------------------------------------------------- counting the rows

  /** `e` is `d` or one of `d`'s transitive reports: a row of `[d] + Below(d)`. */
  ghost predicate InTeamOf(emps: seq<Employee>, rank: map<int, nat>, e: Employee, d: Employee)
    requires Table(emps, rank) && d in emps
  {
    RankedMember(emps, rank, d);
    e in emps && (e == d || Reaches(emps, rank, e, d.id))
  }

  /** How many of the teams of `ds` hold `e`. */
  ghost function TeamsHolding(emps: seq<Employee>, rank: map<int, nat>, e: Employee, ds: seq<Employee>): nat
    requires Table(emps, rank) && forall d :: d in ds ==> d in emps
  {
    if ds == [] then 0
    else (if InTeamOf(emps, rank, e, ds[0]) then 1 else 0) + TeamsHolding(emps, rank, e, ds[1..])
  }

  lemma {:induction false} TeamsHoldingNone(emps: seq<Employee>, rank: map<int, nat>, e: Employee, ds: seq<Employee>)
    requires Table(emps, rank) && forall d :: d in ds ==> d in emps
    requires forall d :: d in ds ==> !InTeamOf(emps, rank, e, d)
    ensures TeamsHolding(emps, rank, e, ds) == 0
  {
    if ds != [] {
      assert ds[0] in ds;
      TeamsHoldingNone(emps, rank, e, ds[1..]);
    }
  }

  lemma {:induction false} TeamsHoldingOne(emps: seq<Employee>, rank: map<int, nat>, e: Employee, ds: seq<Employee>, t: Employee)
    requires Table(emps, rank) && forall d :: d in ds ==> d in emps
    requires UniqueIds(ds) && t in ds
    requires forall d :: d in ds && InTeamOf(emps, rank, e, d) ==> d == t
    ensures TeamsHolding(emps, rank, e, ds) == if InTeamOf(emps, rank, e, t) then 1 else 0
  {
    assert ds[0] in ds;
    if ds[0] == t {
      assert forall d :: d in ds[1..] ==> d != t by {
        forall d | d in ds[1..] ensures d != t {
          var j :| 0 <= j < |ds[1..]| && ds[1..][j] == d;
          assert ds[j + 1] == d;
        }
      }
      TeamsHoldingNone(emps, rank, e, ds[1..]);
    } else {
      TeamsHoldingOne(emps, rank, e, ds[1..], t);
    }
  }

  /** Exactly one direct report of `x` has `e` in their team when `e` reports to `x`, and none otherwise. */
  lemma DirectTeamsHolding(emps: seq<Employee>, rank: map<int, nat>, e: Employee, x: int)
    requires Table(emps, rank) && x in rank
    ensures TeamsHolding(emps, rank, e, DirectReports(emps, x)) ==
      if e in emps && Reaches(emps, rank, e, x) then 1 else 0
  {
    var ds := DirectReports(emps, x);
    forall d | d in ds && InTeamOf(emps, rank, e, d)
      ensures e in emps && Reaches(emps, rank, e, x) && d == Via(emps, rank, e, x)
    {
      ViaUnique(emps, rank, e, d, x);
    }
    if e in emps && Reaches(emps, rank, e, x) {
      var t := Via(emps, rank, e, x);
      TeamsHoldingOne(emps, rank, e, ds, t);
    } else {
      TeamsHoldingNone(emps, rank, e, ds);
    }
  }

  /** `UNION ALL` on an acyclic manager relation: below `x`, each transitive report appears once and nobody else. */
  lemma {:induction false} BelowCount(emps: seq<Employee>, rank: map<int, nat>, x: int, e: Employee)
    requires Table(emps, rank) && x in rank
    ensures multiset(Below(emps, rank, x))[e] == if e in emps && Reaches(emps, rank, e, x) then 1 else 0
    decreases rank[x], |emps| + 1
  {
    BelowAllCount(emps, rank, x, DirectReports(emps, x), e);
    DirectTeamsHolding(emps, rank, e, x);
  }

  lemma {:induction false} BelowAllCount(emps: seq<Employee>, rank: map<int, nat>, x: int, ds: seq<Employee>, e: Employee)
    requires Table(emps, rank) && x in rank
    requires forall d :: d in ds ==> d in emps && ReportsDirectlyTo(d, x)
    requires |ds| <= |emps|
    ensures multiset(BelowAll(emps, rank, x, ds))[e] == TeamsHolding(emps, rank, e, ds)
    decreases rank[x], |ds|
  {
    if ds != [] {
      var d := ds[0];
      assert d in emps && ReportsDirectlyTo(d, x);
      assert d.manager.value == x;
      TeamRowsCount(emps, rank, d, e);
      BelowAllCount(emps, rank, x, ds[1..], e);
      assert BelowAll(emps, rank, x, ds) == TeamRows(emps, rank, d) + BelowAll(emps, rank, x, ds[1..]);
    }
  }

  /** The rows grouped under `root`: `root` itself once, each transitive report of `root` once, nobody else. */
  lemma {:induction false} TeamRowsCount(emps: seq<Employee>, rank: map<int, nat>, root: Employee, e: Employee)
    requires Table(emps, rank) && root in emps
    ensures multiset(TeamRows(emps, rank, root))[e] ==
      if e == root || (e in emps && Reaches(emps, rank, e, root.id)) then 1 else 0
    decreases rank[root.id], |emps| + 2
  {
    RankedMember(emps, rank, root);
    BelowCount(emps, rank, root.id, e);
    if e == root && Reaches(emps, rank, e, root.id) {
      ReachesRank(emps, rank, e, root.id);
    }
  }

  // ---------------------------------------------------------------- totals

  /** The transitive reports of `x` among `s`, in table order. */
  ghost function ReportsAmong(emps: seq<Employee>, rank: map<int, nat>, s: seq<Employee>, x: int): seq<Employee>
    requires Table(emps, rank) && x in rank && forall e :: e in s ==> e in emps
  {
    if s == [] then []
    else
      assert s[0] in s;
      (if Reaches(emps, rank, s[0], x) then [s[0]] else []) + ReportsAmong(emps, rank, s[1..], x)
  }

  ghost function Reports(emps: seq<Employee>, rank: map<int, nat>, x: int): seq<Employee>
    requires Table(emps, rank) && x in rank
  {
    ReportsAmong(emps, rank, emps, x)
  }

  lemma {:induction false} ReportsAmongCount(emps: seq<Employee>, rank: map<int, nat>, s: seq<Employee>, x: int, e: Employee)
    requires Table(emps, rank) && x in rank && forall e :: e in s ==> e in emps
    requires UniqueIds(s)
    ensures multiset(ReportsAmong(emps, rank, s, x))[e] == if e in s && Reaches(emps, rank, e, x) then 1 else 0
  {
    if s != [] {
      assert s[0] in s;
      ReportsAmongCount(emps, rank, s[1..], x, e);
      if e == s[0] {
        assert e !in s[1..];
      }
      assert e in s <==> e == s[0] || e in s[1..];
    }
  }

  lemma {:induction false} SumSalariesConcat(a: seq<Employee>, b: seq<Employee>)
    ensures SumSalaries(a + b) == SumSalaries(a) + SumSalaries(b)
  {
    if a != [] {
      SumSalariesConcat(a[1..], b);
      assert (a + b)[0] == a[0];
      assert (a + b)[1..] == a[1..] + b;
    } else {
      assert a + b == b;
    }
  }

  /** Taking the same element out of two permutations of each other leaves two permutations. */
  lemma RemoveFromPermutation<T>(a: seq<T>, b: seq<T>, i: nat)
    requires multiset(a) == multiset(b) && a != [] && i < |b| && b[i] == a[0]
    ensures multiset(a[1..]) == multiset(b[..i] + b[i + 1..])
  {
    assert a == [a[0]] + a[1..];
    assert b == b[..i] + [b[i]] + b[i + 1..];
    forall y ensures multiset(a[1..])[y] == multiset(b[..i] + b[i + 1..])[y] {
      assert multiset(a)[y] == multiset(b)[y];
    }
  }

  lemma SplitAt<T>(b: seq<T>, i: nat)
    requires i < |b|
    ensures b == b[..i] + ([b[i]] + b[i + 1..])
  {
  }

  lemma SumSalariesRemove(b: seq<Employee>, i: nat)
    requires i < |b|
    ensures SumSalaries(b) == b[i].salary + SumSalaries(b[..i] + b[i + 1..])
  {
    SplitAt(b, i);
    SumSalariesConcat(b[..i], [b[i]] + b[i + 1..]);
    SumSalariesConcat(b[..i], b[i + 1..]);
  }

  /** Summing the rows does not depend on their order. */
  lemma {:induction false} SumSalariesPermutation(a: seq<Employee>, b: seq<Employee>)
    requires multiset(a) == multiset(b)
    ensures SumSalaries(a) == SumSalaries(b)
    decreases |a|
  {
    if a == [] {
      assert |b| == |multiset(b)| == 0;
    } else {
      assert a[0] in multiset(b);
      var i :| 0 <= i < |b| && b[i] == a[0];
      RemoveFromPermutation(a, b, i);
      SumSalariesRemove(b, i);
      SumSalariesPermutation(a[1..], b[..i] + b[i + 1..]);
    }
  }

  /** `TotalTeamSalary(e)` is `e`'s salary plus the salaries of all transitive reports of `e`. */
  lemma TotalIsSalaryPlusReports(emps: seq<Employee>, rank: map<int, nat>, root: Employee)
    requires Table(emps, rank) && root in emps
    ensures TotalTeamSalary(emps, rank, root) == root.salary + SumSalaries(Reports(emps, rank, root.id))
  {
    RankedMember(emps, rank, root);
    var below := Below(emps, rank, root.id);
    var reports := Reports(emps, rank, root.id);
    forall e ensures multiset(below)[e] == multiset(reports)[e] {
      BelowCount(emps, rank, root.id, e);
      ReportsAmongCount(emps, rank, emps, root.id, e);
    }
    assert multiset(below) == multiset(reports);
    SumSalariesPermutation(below, reports);
    assert TeamRows(emps, rank, root) == [root] + below;
    assert ([root] + below)[1..] == below;
  }

  /** The sum of `TotalTeamSalary` over `ds`. */
  function SumTotals(emps: seq<Employee>, ghost rank: map<int, nat>, ds: seq<Employee>): int
    requires Table(emps, rank) && forall d :: d in ds ==> d in emps
  {
    if ds == [] then 0
    else
      assert ds[0] in ds;
      TotalTeamSalary(emps, rank, ds[0]) + SumTotals(emps, rank, ds[1..])
  }

  lemma {:induction false} BelowAllSum(emps: seq<Employee>, rank: map<int, nat>, x: int, ds: seq<Employee>)
    requires Table(emps, rank) && x in rank
    requires forall d :: d in ds ==> d in emps && ReportsDirectlyTo(d, x)
    requires |ds| <= |emps|
    ensures SumSalaries(BelowAll(emps, rank, x, ds)) == SumTotals(emps, rank, ds)
    decreases |ds|
  {
    if ds != [] {
      var d := ds[0];
      assert d in emps && ReportsDirectlyTo(d, x);
      RankedMember(emps, rank, d);
      var team := Below(emps, rank, d.id);
      var rest := BelowAll(emps, rank, x, ds[1..]);
      assert BelowAll(emps, rank, x, ds) == [d] + team + rest;
      SumSalariesConcat([d] + team, rest);
      SumSalariesConcat([d], team);
      assert TeamRows(emps, rank, d) == [d] + team;
      BelowAllSum(emps, rank, x, ds[1..]);
    }
  }

  /** Equivalently, `TotalTeamSalary(e)` is `e`'s salary plus the totals of `e`'s direct reports other than `e`. */
  lemma TotalIsSalaryPlusDirectTotals(emps: seq<Employee>, rank: map<int, nat>, root: Employee)
    requires Table(emps, rank) && root in emps
    ensures TotalTeamSalary(emps, rank, root) == root.salary + SumTotals(emps, rank, DirectReports(emps, root.id))
  {
    RankedMember(emps, rank, root);
    BelowAllSum(emps, rank, root.id, DirectReports(emps, root.id));
    var below := Below(emps, rank, root.id);
    assert TeamRows(emps, rank, root) == [root] + below;
    assert ([root] + below)[1..] == below;
  }

  /** Managing oneself adds nothing: the root's row is counted once, even when `ManagerID` is the root's own id. */
  lemma SelfManagerCountedOnce(emps: seq<Employee>, rank: map<int, nat>, root: Employee)
    requires Table(emps, rank) && root in emps
    requires root.manager == Some(root.id)
    ensures multiset(TeamRows(emps, rank, root))[root] == 1
    ensures root !in DirectReports(emps, root.id)
  {
    TeamRowsCount(emps, rank, root, root);
  }

  /** An employee nobody reports to has their own salary as total. */
  lemma NoReportsTotalIsSalary(emps: seq<Employee>, rank: map<int, nat>, root: Employee)
    requires Table(emps, rank) && root in emps
    requires forall e :: e in emps ==> !ReportsDirectlyTo(e, root.id)
    ensures TotalTeamSalary(emps, rank, root) == root.salary
  {
    TotalIsSalaryPlusDirectTotals(emps, rank, root);
  }

  // ---------------------------------------------------------------- the result table

  /** A result row: `RootEmployee AS EmployeeID, SUM(Salary) AS TotalTeamSalary`. */
  datatype TeamTotal = TeamTotal(employeeId: int, totalTeamSalary: int)

  predicate Ascending(rows: seq<TeamTotal>) {
    forall i, j :: 0 <= i < j < |rows| ==> rows[i].employeeId < rows[j].employeeId
  }

  predicate UniqueRowIds(rows: seq<TeamTotal>) {
    forall i, j :: 0 <= i < j < |rows| ==> rows[i].employeeId != rows[j].employeeId
  }

  /** Places `t` in an ascending `rows` whose ids differ from `t`'s. */
  function InsertById(t: TeamTotal, rows: seq<TeamTotal>): (r: seq<TeamTotal>)
    requires Ascending(rows) && forall u :: u in rows ==> u.employeeId != t.employeeId
    ensures Ascending(r)
    ensures forall u :: u in r <==> u == t || u in rows
    ensures |r| == |rows| + 1
  {
    if rows == [] then [t]
    else if t.employeeId < rows[0].employeeId then
      assert forall u :: u in rows ==> rows[0].employeeId <= u.employeeId;
      [t] + rows
    else
      assert rows[0] in rows;
      assert forall u :: u in rows[1..] ==> rows[0].employeeId < u.employeeId;
      [rows[0]] + InsertById(t, rows[1..])
  }

  /** `ORDER BY EmployeeID`. */
  function SortById(rows: seq<TeamTotal>): (r: seq<TeamTotal>)
    requires UniqueRowIds(rows)
    ensures Ascending(r)
    ensures forall u :: u in r <==> u in rows
    ensures |r| == |rows|
  {
    if rows == [] then []
    else
      var rest := SortById(rows[1..]);
      assert forall u :: u in rows[1..] ==> u.employeeId != rows[0].employeeId;
      InsertById(rows[0], rest)
  }

  /** One group per `RootEmployee`, in table order. */
  function Groups(emps: seq<Employee>, ghost rank: map<int, nat>, s: seq<Employee>): (r: seq<TeamTotal>)
    requires Table(emps, rank) && forall e :: e in s ==> e in emps
    ensures |r| == |s|
    ensures forall i :: 0 <= i < |s| ==> r[i] == TeamTotal(s[i].id, TotalTeamSalary(emps, rank, s[i]))
  {
    if s == [] then []
    else
      assert s[0] in s;
      var head := TeamTotal(s[0].id, TotalTeamSalary(emps, rank, s[0]));
      var rest := Groups(emps, rank, s[1..]);
      assert forall i :: 0 < i < |s| ==> ([head] + rest)[i] == rest[i - 1] && s[1..][i - 1] == s[i];
      [head] + rest
  }

  /** The result of the whole query. */
  function TeamSalaryReport(emps: seq<Employee>, ghost rank: map<int, nat>): seq<TeamTotal>
    requires Table(emps, rank)
  {
    var groups := Groups(emps, rank, emps);
    SortById(groups)
  }

  /** One row per employee, carrying that employee's total, in ascending `EmployeeID` order. */
  lemma ReportRows(emps: seq<Employee>, rank: map<int, nat>)
    requires Table(emps, rank)
    ensures var r := TeamSalaryReport(emps, rank);
      && |r| == |emps|
      && Ascending(r)
      && (forall e :: e in emps ==> TeamTotal(e.id, TotalTeamSalary(emps, rank, e)) in r)
      && (forall u :: u in r ==> exists i :: 0 <= i < |emps| && u == TeamTotal(emps[i].id, TotalTeamSalary(emps, rank, emps[i])))
  {
    var groups := Groups(emps, rank, emps);
    forall e | e in emps ensures TeamTotal(e.id, TotalTeamSalary(emps, rank, e)) in groups {
      var i :| 0 <= i < |emps| && emps[i] == e;
      assert groups[i] == TeamTotal(e.id, TotalTeamSalary(emps, rank, e));
    }
  }

  // ---------------------------------------------------------------- around the query

  const EmployeesUrl := "https://apim.workato.com/taboola-dev/homework-exam-v1/api/get_employees"

  /** What `fetch_employee_data` returns when the service gives no usable answer. */
  const Fallback := JObj(map["employees" := JStr("")])

  /** `fetch_employee_data`: the decoded body, or the fallback on any failure. */
  function FetchEmployeeData(api: Api): (r: Json)
    ensures Request(api, JStr(EmployeesUrl)).Ok? ==> r == Request(api, JStr(EmployeesUrl)).body
    ensures Request(api, JStr(EmployeesUrl)).Fail? ==> r == Fallback
  {
    match Request(api, JStr(EmployeesUrl))
    case Ok(body) => body
    case Fail => Fallback
  }

  /** The guard at the top of `main`: `"employees" in data` and `isinstance(data["employees"], list)`. */
  function MainProceeds(data: Json): (r: Outcome<bool>)
    ensures r == Returned(true) <==> data.JObj? && "employees" in data.fields && data.fields["employees"].JArr?
    ensures data.JObj? ==> r.Returned?
  {
    var present :- Contains(data, "employees");
    if !present then Returned(false)
    else
      var employees :- Subscript(data, "employees");
      Returned(employees.JArr?)
  }

  /** The fallback never gets past that guard, so `main` goes on only with data the service sent. */
  lemma FallbackRejected(api: Api)
    ensures MainProceeds(Fallback) == Returned(false)
    ensures MainProceeds(FetchEmployeeData(api)) == Returned(true) ==> Request(api, JStr(EmployeesUrl)).Ok?
  {
    assert "employees" in Fallback.fields;
  }
}
