/** A project's statistics as the backend reports them: GPU, memory and
    job quotas against what the running jobs use, the number of jobs in
    each status, and the five most recently updated jobs. Memory is in
    bytes; the CPU figures, the usage rates and the readable memory text go
    through floats and are not part of this model. */
module Stats {
  import opened Wrappers
  import opened JobStore
  import Quantity

  const RECENT_LIMIT: nat := 5

  // ---------------------------------------------------------------- usage sums

  /** The GPUs the running jobs use; a job without a figure counts 0. */
  function RunningGpu(jobs: seq<JobRecord>): int {
    if jobs == [] then 0
    else
      var last := jobs[|jobs| - 1];
      RunningGpu(jobs[..|jobs| - 1]) + if last.status == RUNNING then last.gpuUsage.GetOr(0) else 0
  }

  /** What one job adds to the memory total: its usage in bytes when it is
      running and has a non-empty usage text. */
  function MemoryTerm(j: JobRecord): int {
    if j.status == RUNNING && j.memoryUsage.Some? && j.memoryUsage.value != [] then
      Quantity.ConvertMemoryToBytes(j.memoryUsage.value)
    else 0
  }

  function RunningMemory(jobs: seq<JobRecord>): int {
    if jobs == [] then 0 else RunningMemory(jobs[..|jobs| - 1]) + MemoryTerm(jobs[|jobs| - 1])
  }

  /** The totals add up over any split of the jobs, so each job counts once
      and only its own figure counts. */
  lemma {:induction false} UsageSplits(a: seq<JobRecord>, b: seq<JobRecord>)
    ensures RunningGpu(a + b) == RunningGpu(a) + RunningGpu(b)
    ensures RunningMemory(a + b) == RunningMemory(a) + RunningMemory(b)
  {
    if b != [] {
      assert (a + b)[..|a + b| - 1] == a + b[..|b| - 1];
      UsageSplits(a, b[..|b| - 1]);
    } else {
      assert a + b == a;
    }
  }

  /** Jobs that are not running add nothing. */
  lemma {:induction false} IdleJobsUseNothing(jobs: seq<JobRecord>)
    requires forall k :: 0 <= k < |jobs| ==> jobs[k].status != RUNNING
    ensures RunningGpu(jobs) == 0 && RunningMemory(jobs) == 0
  {
    if jobs != [] {
      IdleJobsUseNothing(jobs[..|jobs| - 1]);
    }
  }

  /** _sum_memory_usage: the bytes of the running jobs, added up in a loop. */
  method SumMemoryUsage(jobs: seq<JobRecord>) returns (total: int)
    ensures total == RunningMemory(jobs)
  {
    total := 0;
    var i := 0;
    while i < |jobs|
      invariant 0 <= i <= |jobs|
      invariant total == RunningMemory(jobs[..i])
    {
      assert jobs[..i + 1][..i] == jobs[..i];
      total := total + MemoryTerm(jobs[i]);
      i := i + 1;
    }
    assert jobs[..|jobs|] == jobs;
  }

  // ---------------------------------------------------------------- status counts

  function CountStatus(jobs: seq<JobRecord>, status: string): (n: nat)
    ensures n <= |jobs|
  {
    if jobs == [] then 0
    else CountStatus(jobs[1..], status) + if jobs[0].status == status then 1 else 0
  }

  datatype JobCounts = JobCounts(total: nat, running: nat, pending: nat, succeeded: nat,
                                 failed: nat, deleted: nat, error: nat)

  const COUNTED_STATUSES := [RUNNING, PENDING, "succeeded", "failed", "deleted", "error"]

  function Counts(jobs: seq<JobRecord>): JobCounts {
    JobCounts(|jobs|, CountStatus(jobs, RUNNING), CountStatus(jobs, PENDING), CountStatus(jobs, "succeeded"),
              CountStatus(jobs, "failed"), CountStatus(jobs, "deleted"), CountStatus(jobs, "error"))
  }

  function CountedSum(c: JobCounts): nat {
    c.running + c.pending + c.succeeded + c.failed + c.deleted + c.error
  }

  /** The jobs in none of the counted statuses. */
  function Uncounted(jobs: seq<JobRecord>): nat {
    if jobs == [] then 0 else Uncounted(jobs[1..]) + if jobs[0].status in COUNTED_STATUSES then 0 else 1
  }

  /** Every job is counted once: under its own status, or not at all when
      that status is not one of the six. */
  lemma {:induction false} CountsPartitionTotal(jobs: seq<JobRecord>)
    ensures CountedSum(Counts(jobs)) + Uncounted(jobs) == Counts(jobs).total
  {
    if jobs != [] {
      CountsPartitionTotal(jobs[1..]);
      HeadCountedOnce(jobs[0].status);
    }
  }

  /** A status adds one to exactly one of the six counts, or to none. */
  lemma HeadCountedOnce(st: string)
    ensures (if st == RUNNING then 1 else 0) + (if st == PENDING then 1 else 0) +
            (if st == "succeeded" then 1 else 0) + (if st == "failed" then 1 else 0) +
            (if st == "deleted" then 1 else 0) + (if st == "error" then 1 else 0) +
            (if st in COUNTED_STATUSES then 0 else 1) == 1
  {
    if st == RUNNING {
      assert st[0] == 'r';
    } else if st == PENDING {
      assert st[0] == 'p';
    } else if st == "succeeded" {
      assert st[0] == 's';
    } else if st == "failed" {
      assert st[0] == 'f';
    } else if st == "deleted" {
      assert st[0] == 'd';
    } else if st == "error" {
      assert st[0] == 'e';
    }
  }

  /** So the per-status counts add up to the total exactly when every job
      is in one of the counted statuses. */
  lemma {:induction false} CountsReachTotal(jobs: seq<JobRecord>)
    ensures CountedSum(Counts(jobs)) == Counts(jobs).total <==>
              forall k :: 0 <= k < |jobs| ==> jobs[k].status in COUNTED_STATUSES
  {
    CountsPartitionTotal(jobs);
    UncountedZero(jobs);
  }

  lemma {:induction false} UncountedZero(jobs: seq<JobRecord>)
    ensures Uncounted(jobs) == 0 <==> forall k :: 0 <= k < |jobs| ==> jobs[k].status in COUNTED_STATUSES
  {
    if jobs != [] {
      UncountedZero(jobs[1..]);
      assert forall k :: 1 <= k < |jobs| ==> jobs[k] == jobs[1..][k - 1];
    }
  }

  // ---------------------------------------------------------------- recent activities

  /** `a` sorts no later than `b` by update time, newest first; a missing
      update time is older than every time. */
  predicate AtLeastAsRecent(a: JobRecord, b: JobRecord) {
    b.updatedAt.None? || (a.updatedAt.Some? && a.updatedAt.value >= b.updatedAt.value)
  }

  predicate NewestFirst(s: seq<JobRecord>) {
    forall i, k :: 0 <= i < k < |s| ==> AtLeastAsRecent(s[i], s[k])
  }

  /** A job at least as recent as all of a newest-first list may lead it. */
  lemma PrependNewest(h: JobRecord, rest: seq<JobRecord>)
    requires NewestFirst(rest)
    requires forall x :: x in rest ==> AtLeastAsRecent(h, x)
    ensures NewestFirst([h] + rest)
  {
    forall i, k | 0 <= i < k < |[h] + rest| ensures AtLeastAsRecent(([h] + rest)[i], ([h] + rest)[k]) {
      if i == 0 {
        assert ([h] + rest)[k] in rest;
      }
    }
  }

  /** The head of a newest-first list is at least as recent as the rest,
      and a job newer than the head is newer than all of it. */
  lemma HeadIsNewest(s: seq<JobRecord>, j: JobRecord)
    requires NewestFirst(s) && s != []
    ensures forall x :: x in s[1..] ==> AtLeastAsRecent(s[0], x)
    ensures !AtLeastAsRecent(s[0], j) ==> forall x :: x in s ==> AtLeastAsRecent(j, x)
  {
    forall x | x in s ensures AtLeastAsRecent(s[0], x) {
      var k :| 0 <= k < |s| && s[k] == x;
      if k > 0 {
        assert AtLeastAsRecent(s[0], s[k]);
      }
    }
  }

  /** Insert `j` after every job at least as recent: a later job of equal
      time goes after an earlier one, as a stable sort keeps them. */
  function InsertByRecency(j: JobRecord, s: seq<JobRecord>): (r: seq<JobRecord>)
    requires NewestFirst(s)
    ensures |r| == |s| + 1
    ensures forall x :: x in r <==> x in s || x == j
    ensures multiset(r) == multiset(s) + multiset{j}
    ensures NewestFirst(r)
  {
    if s == [] then [j]
    else if AtLeastAsRecent(s[0], j) then
      var rest := InsertByRecency(j, s[1..]);
      assert s == [s[0]] + s[1..];
      HeadIsNewest(s, j);
      PrependNewest(s[0], rest);
      [s[0]] + rest
    else
      assert s == [s[0]] + s[1..];
      HeadIsNewest(s, j);
      PrependNewest(j, s);
      [j] + s
  }

  /** sorted(jobs, key=updated_at or datetime.min, reverse=True). */
  function ByRecency(jobs: seq<JobRecord>): (r: seq<JobRecord>)
    ensures |r| == |jobs|
    ensures multiset(r) == multiset(jobs)
    ensures NewestFirst(r)
  {
    if jobs == [] then []
    else
      assert jobs == jobs[..|jobs| - 1] + [jobs[|jobs| - 1]];
      InsertByRecency(jobs[|jobs| - 1], ByRecency(jobs[..|jobs| - 1]))
  }

  datatype Activity = Activity(jobId: string, name: string, status: string, message: Option<string>, updatedAt: Option<int>)

  function ActivityOf(j: JobRecord): Activity {
    Activity(j.jobId, j.name, j.status, j.message, j.updatedAt)
  }

  /** _get_recent_activities: the first `limit` jobs by recency, one
      activity each, appended in a loop. */
  method RecentActivities(jobs: seq<JobRecord>, limit: nat) returns (activities: seq<Activity>)
    ensures |activities| == if |jobs| < limit then |jobs| else limit
    ensures forall k :: 0 <= k < |activities| ==> activities[k] == ActivityOf(ByRecency(jobs)[k])
  {
    var sorted := ByRecency(jobs);
    var n := if |sorted| < limit then |sorted| else limit;
    activities := [];
    var i := 0;
    while i < n
      invariant 0 <= i <= n && |activities| == i
      invariant forall k :: 0 <= k < i ==> activities[k] == ActivityOf(sorted[k])
    {
      activities := activities + [ActivityOf(sorted[i])];
      i := i + 1;
    }
  }

  /** Every job is reported or no newer than each reported one, and a job
      with an update time sorts before every job without one. */
  lemma RecentAreNewest(jobs: seq<JobRecord>, limit: nat, j: JobRecord)
    requires j in jobs
    ensures j in ByRecency(jobs)
    ensures var s := ByRecency(jobs);
            forall m, i :: 0 <= i < limit <= m < |s| && s[m] == j ==> AtLeastAsRecent(s[i], j)
    ensures var s := ByRecency(jobs);
            j.updatedAt.Some? ==> forall i :: 0 <= i < |s| && s[i].updatedAt.None? ==> AtLeastAsRecent(j, s[i])
  {
    assert j in multiset(ByRecency(jobs));
  }

  // ---------------------------------------------------------------- get_project_stats

  datatype ProjectStats = ProjectStats(
    name: string,
    gpuLimit: int,
    gpuUsed: int,
    gpuAvailable: int,
    memoryUsedBytes: int,
    memoryAvailableBytes: int,
    jobsLimit: int,
    jobsUsed: nat,
    jobsAvailable: int,
    jobStats: JobCounts,
    recentActivities: seq<Activity>)

  /** get_project_stats: None (the empty dict) for an unknown project;
      otherwise the figures over all of the project's jobs. Available memory
      is the limit's bytes less the running jobs' bytes. */
  method GetProjectStats(db: Backend, projectId: nat) returns (r: Option<ProjectStats>)
    ensures FindProject(db.projects, projectId).None? <==> r.None?
    ensures r.Some? ==>
              var p := FindProject(db.projects, projectId).value;
              var mine := ProjectJobs(db.jobs, projectId);
              r.value.name == p.name && r.value.gpuLimit == p.gpuLimit && r.value.jobsLimit == p.maxJobs &&
              r.value.gpuUsed == RunningGpu(mine) && r.value.gpuAvailable == p.gpuLimit - RunningGpu(mine) &&
              r.value.memoryUsedBytes == RunningMemory(mine) &&
              r.value.memoryAvailableBytes == Quantity.ConvertMemoryToBytes(p.memoryLimit) - RunningMemory(mine) &&
              r.value.jobsUsed == |mine| && r.value.jobsAvailable == p.maxJobs - |mine| &&
              r.value.jobStats == Counts(mine) &&
              |r.value.recentActivities| == (if |mine| < RECENT_LIMIT then |mine| else RECENT_LIMIT) &&
              forall k :: 0 <= k < |r.value.recentActivities| ==>
                r.value.recentActivities[k] == ActivityOf(ByRecency(mine)[k])
  {
    var project := FindProject(db.projects, projectId);
    if project.None? {
      return None;
    }
    var p := project.value;
    var mine := ProjectJobs(db.jobs, projectId);
    var gpuUsed := RunningGpu(mine);
    var memoryUsed := SumMemoryUsage(mine);
    var recent := RecentActivities(mine, RECENT_LIMIT);
    r := Some(ProjectStats(p.name, p.gpuLimit, gpuUsed, p.gpuLimit - gpuUsed, memoryUsed,
                           Quantity.ConvertMemoryToBytes(p.memoryLimit) - memoryUsed,
                           p.maxJobs, |mine|, p.maxJobs - |mine|, Counts(mine), recent));
  }

  /** A running job in the list. */
  predicate AnyRunning(jobs: seq<JobRecord>) {
    exists k :: 0 <= k < |jobs| && jobs[k].status == RUNNING
  }

  /** get_project_stats as written: the GPU sum reads gpu_usage of each
      running job, a column the entity does not declare, and the handler
      answers the empty dict. So a project with a running job gets None; one
      without gets the full figures, every usage zero. */
  method GetProjectStatsAsWritten(db: Backend, projectId: nat) returns (r: Option<ProjectStats>)
    ensures r.None? <==>
              FindProject(db.projects, projectId).None? || AnyRunning(ProjectJobs(db.jobs, projectId))
    ensures r.Some? ==>
              var p := FindProject(db.projects, projectId).value;
              r.value.name == p.name && r.value.gpuLimit == p.gpuLimit &&
              r.value.gpuUsed == 0 && r.value.gpuAvailable == p.gpuLimit &&
              r.value.memoryUsedBytes == 0 &&
              r.value.memoryAvailableBytes == Quantity.ConvertMemoryToBytes(p.memoryLimit) &&
              r.value.jobStats == Counts(ProjectJobs(db.jobs, projectId))
  {
    var mine := ProjectJobs(db.jobs, projectId);
    assert "gpu_usage" !in MLJOB_COLUMNS;
    if "gpu_usage" !in MLJOB_COLUMNS && AnyRunning(mine) {
      return None;
    }
    r := GetProjectStats(db, projectId);
    IdleJobsUseNothing(mine);
  }
}
