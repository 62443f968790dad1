/**
 * The integer figures of the task dashboard: how many tasks there are, how
 * many are completed or in progress, their total estimated minutes and the
 * rounded average.
 */
module TaskDashboard {
  import opened Wrappers
  import opened Schema

  /** A task as the dashboard receives it; the estimate may be missing. */
  datatype DashboardTask = DashboardTask(id: int, status: TaskStatus, estimatedTimeMinutes: Option<int>)

  datatype Stats = Stats(totalTasks: nat, completedCount: nat, inProgressCount: nat, totalEstimatedTime: int, averageTime: int)

  /** `tasks.filter(task => task.status === status).length` */
  function CountWithStatus(tasks: seq<DashboardTask>, status: TaskStatus): (n: nat)
    ensures n <= |tasks|
    ensures n == 0 <==> forall i :: 0 <= i < |tasks| ==> tasks[i].status != status
  {
    if tasks == [] then 0
    else (if tasks[0].status == status then 1 else 0) + CountWithStatus(tasks[1..], status)
  }

  /** `task.estimatedTimeMinutes || 0`: a missing estimate (or 0) counts as 0. */
  function Minutes(t: DashboardTask): (m: int)
    ensures t.estimatedTimeMinutes.None? ==> m == 0
    ensures t.estimatedTimeMinutes.Some? ==> m == t.estimatedTimeMinutes.value
  {
    t.estimatedTimeMinutes.GetOr(0)
  }

  /** `tasks.reduce((total, task) => total + (task.estimatedTimeMinutes || 0), 0)` */
  function TotalEstimatedTime(tasks: seq<DashboardTask>): (total: int)
    ensures (forall i :: 0 <= i < |tasks| ==> Minutes(tasks[i]) >= 0) ==> total >= 0
    ensures (forall i :: 0 <= i < |tasks| ==> tasks[i].estimatedTimeMinutes.None?) ==> total == 0
  {
    if tasks == [] then 0 else Minutes(tasks[0]) + TotalEstimatedTime(tasks[1..])
  }

  /** `Math.round(total / n)`: the nearest integer, halves rounded up. */
  function RoundedQuotient(total: int, n: int): (r: int)
    requires n > 0
    ensures 2 * n * r - n <= 2 * total < 2 * n * r + n
  {
    var q := (2 * total + n) / (2 * n);
    var m := (2 * total + n) % (2 * n);
    assert 2 * total + n == 2 * n * q + m && 0 <= m < 2 * n;
    q
  }

  /** `totalTasks ? Math.round(totalEstimatedTime / totalTasks) : 0` */
  function AverageTime(tasks: seq<DashboardTask>): (avg: int)
    ensures |tasks| == 0 ==> avg == 0
    ensures |tasks| > 0 ==>
      2 * |tasks| * avg - |tasks| <= 2 * TotalEstimatedTime(tasks) < 2 * |tasks| * avg + |tasks|
  {
    if |tasks| == 0 then 0 else RoundedQuotient(TotalEstimatedTime(tasks), |tasks|)
  }

  /** The five figures the dashboard shows. */
  function Summarize(tasks: seq<DashboardTask>): (s: Stats)
    ensures s.totalTasks == |tasks|
    ensures s.completedCount + s.inProgressCount <= s.totalTasks
    ensures s.totalTasks == 0 ==> s.averageTime == 0 && s.totalEstimatedTime == 0
    ensures s.totalTasks > 0 ==>
      2 * s.totalTasks * s.averageTime - s.totalTasks <= 2 * s.totalEstimatedTime < 2 * s.totalTasks * s.averageTime + s.totalTasks
    ensures s.completedCount == CountWithStatus(tasks, Completed) && s.inProgressCount == CountWithStatus(tasks, InProgress)
    ensures s.totalEstimatedTime == TotalEstimatedTime(tasks) && s.averageTime == AverageTime(tasks)
  {
    StatusCountsPartition(tasks);
    Stats(|tasks|, CountWithStatus(tasks, Completed), CountWithStatus(tasks, InProgress),
          TotalEstimatedTime(tasks), AverageTime(tasks))
  }

  /** Every task has exactly one of the three statuses. */
  lemma {:induction false} StatusCountsPartition(tasks: seq<DashboardTask>)
    ensures CountWithStatus(tasks, Pending) + CountWithStatus(tasks, InProgress) + CountWithStatus(tasks, Completed) == |tasks|
  {
    if tasks != [] {
      StatusCountsPartition(tasks[1..]);
    }
  }

  /** Counting and summing split over a concatenation of task lists. */
  lemma {:induction false} FiguresOfConcat(a: seq<DashboardTask>, b: seq<DashboardTask>, status: TaskStatus)
    ensures CountWithStatus(a + b, status) == CountWithStatus(a, status) + CountWithStatus(b, status)
    ensures TotalEstimatedTime(a + b) == TotalEstimatedTime(a) + TotalEstimatedTime(b)
  {
    if a != [] {
      assert (a + b)[1..] == a[1..] + b;
      FiguresOfConcat(a[1..], b, status);
    } else {
      assert a + b == b;
    }
  }

  /** When every estimate lies in [lo, hi], the total lies in [n * lo, n * hi]. */
  lemma {:induction false} TotalWithinBounds(tasks: seq<DashboardTask>, lo: int, hi: int)
    requires forall i :: 0 <= i < |tasks| ==> lo <= Minutes(tasks[i]) <= hi
    ensures |tasks| * lo <= TotalEstimatedTime(tasks) <= |tasks| * hi
  {
    if tasks != [] {
      var rest := tasks[1..];
      assert forall i :: 0 <= i < |rest| ==> rest[i] == tasks[i + 1];
      TotalWithinBounds(rest, lo, hi);
      OneMore(|rest|, lo);
      OneMore(|rest|, hi);
    }
  }

  lemma OneMore(n: int, x: int)
    ensures (n + 1) * x == x + n * x
  {
  }

  /** Rounding a quotient that lies in [lo, hi] stays in [lo, hi]. */
  lemma RoundedQuotientWithin(total: int, n: int, lo: int, hi: int)
    requires n > 0 && n * lo <= total <= n * hi
    ensures lo <= RoundedQuotient(total, n) <= hi
  {
    var r := RoundedQuotient(total, n);
    // 2n(r - hi) <= n and 2n(lo - r) < n, so neither difference can reach 1.
    assert 2 * n * (r - hi) <= n;
    assert 2 * n * (lo - r) < n;
    SmallMultiple(n, r - hi);
    SmallMultiple(n, lo - r);
  }

  lemma SmallMultiple(n: int, k: int)
    requires n > 0 && 2 * n * k <= n
    ensures k <= 0
  {
  }

  /** When every estimate lies in [lo, hi], so does the rounded average. */
  lemma AverageWithinBounds(tasks: seq<DashboardTask>, lo: int, hi: int)
    requires |tasks| > 0
    requires forall i :: 0 <= i < |tasks| ==> lo <= Minutes(tasks[i]) <= hi
    ensures lo <= AverageTime(tasks) <= hi
  {
    TotalWithinBounds(tasks, lo, hi);
    RoundedQuotientWithin(TotalEstimatedTime(tasks), |tasks|, lo, hi);
  }

  /** For an empty list the average is 0, not the NaN that 0 / 0 would give. */
  lemma AverageOfNoTasks()
    ensures AverageTime([]) == 0
  {
  }
}
