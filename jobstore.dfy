/** The backend's record tables (users, projects, ML jobs) and its CRUD
    operations: inserting a job, updating a job's status in place, and the
    paged and filtered queries. Times are integer seconds; `now` is a
    parameter. */
module JobStore {
  import opened Wrappers

  datatype UserRecord = UserRecord(id: nat, username: string)

  datatype ProjectRecord = ProjectRecord(
    id: nat,
    name: string,
    ownerId: nat,
    gpuLimit: int,
    memoryLimit: string,
    maxJobs: int)

  /** One row of the MLJob table. `updatedAt` is None only for rows written
      by other means; the sweeps' fields `syncErrors`, the usage fields and
      `trainingStatus` are kept here too. */
  datatype JobRecord = JobRecord(
    id: nat,
    jobId: string,
    name: string,
    namespace: string,
    projectId: nat,
    userId: nat,
    training: string,
    status: string,
    message: Option<string>,
    trainingStatus: Option<string>,
    syncErrors: nat,
    createdAt: int,
    updatedAt: Option<int>,
    startedAt: Option<int>,
    completedAt: Option<int>,
    gpuUsage: Option<int>,
    cpuUsage: Option<int>,
    memoryUsage: Option<string>)

  const PENDING := "pending"
  const RUNNING := "running"
  const DEFAULT_SKIP := 0
  const DEFAULT_LIMIT := 100

  // ---------------------------------------------------------------- offset / limit

  /** The smaller of an offset and the number of rows. */
  function Clamp(k: nat, n: nat): (r: nat)
    ensures r <= n && r <= k && (r == k || r == n)
  {
    if k < n then k else n
  }

  /** query.offset(skip).limit(limit)[:] */
  function Page<T>(xs: seq<T>, skip: nat, limit: nat): (page: seq<T>)
    ensures |page| <= limit
    ensures skip >= |xs| ==> page == []
    ensures skip < |xs| ==> |page| == if |xs| - skip < limit then |xs| - skip else limit
    ensures forall k :: 0 <= k < |page| ==> skip + k < |xs| && page[k] == xs[skip + k]
    ensures page == xs[Clamp(skip, |xs|)..Clamp(skip + limit, |xs|)]
  {
    if skip >= |xs| then []
    else if |xs| - skip < limit then xs[skip..]
    else xs[skip..skip + limit]
  }

  /** Two consecutive pages read the rows of one page twice as long. */
  lemma PagesConcatenate<T>(xs: seq<T>, skip: nat, limit: nat)
    ensures Page(xs, skip, limit) + Page(xs, skip + limit, limit) == Page(xs, skip, 2 * limit)
  {
    var a, b, c := Page(xs, skip, limit), Page(xs, skip + limit, limit), Page(xs, skip, 2 * limit);
    assert |a + b| == |c|;
    forall k | 0 <= k < |c| ensures (a + b)[k] == c[k] {
      if k >= |a| {
        assert |a| == limit;
      }
    }
  }

  // ---------------------------------------------------------------- filters

  /** The elements that `keep` accepts, in their original order. */
  function Filter<T>(xs: seq<T>, keep: T -> bool): (r: seq<T>)
    ensures |r| <= |xs|
  {
    if xs == [] then []
    else
      var rest := Filter(xs[1..], keep);
      if keep(xs[0]) then [xs[0]] + rest else rest
  }

  /** Each accepted element is kept as often as it occurs, every other one
      not at all. */
  lemma {:induction false} FilterCounts<T(!new)>(xs: seq<T>, keep: T -> bool)
    ensures forall x :: multiset(Filter(xs, keep))[x] == if keep(x) then multiset(xs)[x] else 0
  {
    if xs != [] {
      assert xs == [xs[0]] + xs[1..];
      FilterCounts(xs[1..], keep);
    }
  }

  /** A row added at the end of the table comes last among the rows kept,
      so the filter keeps the table's order. */
  lemma {:induction false} FilterAppend<T>(xs: seq<T>, x: T, keep: T -> bool)
    ensures Filter(xs + [x], keep) == Filter(xs, keep) + (if keep(x) then [x] else [])
  {
    var ys := xs + [x];
    if xs == [] {
      assert ys == [x] && ys[1..] == [];
    } else {
      assert ys[0] == xs[0] && ys[1..] == xs[1..] + [x];
      FilterAppend(xs[1..], x, keep);
    }
  }

  /** Every element kept was in the input. */
  lemma {:induction false} FilterSubset<T>(xs: seq<T>, keep: T -> bool)
    ensures forall x :: x in Filter(xs, keep) ==> x in xs
  {
    if xs != [] {
      FilterSubset(xs[1..], keep);
    }
  }

  /** Keys of distinct rows differ: what the table's validity promises. */
  ghost predicate KeysDistinct(jobs: seq<JobRecord>) {
    forall a, b :: 0 <= a < b < |jobs| ==> jobs[a].id != jobs[b].id
  }

  /** Removing rows keeps the keys distinct and below a bound. */
  lemma {:induction false} FilterKeepsKeys(jobs: seq<JobRecord>, keep: JobRecord -> bool, bound: nat)
    requires KeysDistinct(jobs) && forall a :: 0 <= a < |jobs| ==> jobs[a].id < bound
    ensures var r := Filter(jobs, keep);
            KeysDistinct(r) && forall a :: 0 <= a < |r| ==> r[a].id < bound
  {
    if jobs != [] {
      var rest := Filter(jobs[1..], keep);
      FilterKeepsKeys(jobs[1..], keep, bound);
      FilterSubset(jobs[1..], keep);
      if keep(jobs[0]) {
        forall b | 0 <= b < |rest| ensures rest[b].id != jobs[0].id {
          assert rest[b] in jobs[1..];
        }
      }
    }
  }

  /** The row tests of the three filtered queries. */
  function InProject(projectId: nat): JobRecord -> bool {
    (j: JobRecord) => j.projectId == projectId
  }

  function ByUser(userId: nat): JobRecord -> bool {
    (j: JobRecord) => j.userId == userId
  }

  function OwnedBy(ownerId: nat): ProjectRecord -> bool {
    (p: ProjectRecord) => p.ownerId == ownerId
  }

  /** The jobs of one project, in table order. */
  function ProjectJobs(jobs: seq<JobRecord>, projectId: nat): (r: seq<JobRecord>)
    ensures |r| <= |jobs|
    ensures forall j :: multiset(r)[j] == if j.projectId == projectId then multiset(jobs)[j] else 0
    ensures forall j :: j in r <==> j in jobs && j.projectId == projectId
  {
    FilterCounts(jobs, InProject(projectId));
    Filter(jobs, InProject(projectId))
  }

  /** A job added to the table comes last among its project's jobs. */
  lemma ProjectJobsAppend(jobs: seq<JobRecord>, j: JobRecord, projectId: nat)
    ensures ProjectJobs(jobs + [j], projectId) == ProjectJobs(jobs, projectId) + (if j.projectId == projectId then [j] else [])
  {
    FilterAppend(jobs, j, InProject(projectId));
  }

  /** The jobs of one user, in table order. */
  function UserJobs(jobs: seq<JobRecord>, userId: nat): (r: seq<JobRecord>)
    ensures |r| <= |jobs|
    ensures forall j :: multiset(r)[j] == if j.userId == userId then multiset(jobs)[j] else 0
    ensures forall j :: j in r <==> j in jobs && j.userId == userId
  {
    FilterCounts(jobs, ByUser(userId));
    Filter(jobs, ByUser(userId))
  }

  /** The projects of one owner, in table order. */
  function OwnedProjects(projects: seq<ProjectRecord>, ownerId: nat): (r: seq<ProjectRecord>)
    ensures forall p :: multiset(r)[p] == if p.ownerId == ownerId then multiset(projects)[p] else 0
    ensures forall p :: p in r <==> p in projects && p.ownerId == ownerId
  {
    FilterCounts(projects, OwnedBy(ownerId));
    Filter(projects, OwnedBy(ownerId))
  }

  /** Where the row with primary key `id` sits, if any. */
  function FindJob(jobs: seq<JobRecord>, id: nat): (r: Option<nat>)
    ensures r.Some? ==> r.value < |jobs| && jobs[r.value].id == id
    ensures r.None? ==> forall i :: 0 <= i < |jobs| ==> jobs[i].id != id
  {
    if jobs == [] then None
    else if jobs[0].id == id then Some(0)
    else match FindJob(jobs[1..], id)
      case None => None
      case Some(i) => Some(i + 1)
  }

  function FindProject(projects: seq<ProjectRecord>, id: nat): (r: Option<ProjectRecord>)
    ensures r.Some? ==> r.value in projects && r.value.id == id
    ensures r.None? ==> forall i :: 0 <= i < |projects| ==> projects[i].id != id
  {
    if projects == [] then None
    else if projects[0].id == id then Some(projects[0])
    else FindProject(projects[1..], id)
  }

  // ---------------------------------------------------------------- update_mljob_status

  /** The fields update_mljob_status writes: status and updated_at always,
      started_at the first time the status is running, completed_at for
      completed and failed (not for succeeded). */
  function WithStatus(j: JobRecord, status: string, now: int): (r: JobRecord)
    ensures r.status == status && r.updatedAt == Some(now)
    ensures r.startedAt == if status == RUNNING && j.startedAt.None? then Some(now) else j.startedAt
    ensures r.completedAt == if status == "completed" || status == "failed" then Some(now) else j.completedAt
    ensures r.(status := j.status, updatedAt := j.updatedAt, startedAt := j.startedAt, completedAt := j.completedAt) == j
  {
    var started := if status == RUNNING && j.startedAt.None? then Some(now) else j.startedAt;
    var completed := if status == "completed" || status == "failed" then Some(now) else j.completedAt;
    j.(status := status, updatedAt := Some(now), startedAt := started, completedAt := completed)
  }

  /** The first start time sticks: a job that keeps reporting running keeps
      the time it first did. */
  lemma StartedAtSetOnce(j: JobRecord, t1: int, t2: int)
    ensures WithStatus(WithStatus(j, RUNNING, t1), RUNNING, t2).startedAt ==
            (if j.startedAt.Some? then j.startedAt else Some(t1))
  {
  }

  // ---------------------------------------------------------------- the MLJob entity

  /** The columns the MLJob entity declares, its key `id` included. The
      sweeps' error count and the usage figures are not among them. */
  const MLJOB_COLUMNS: set<string> :=
    {"id", "job_id", "name", "namespace", "description", "training", "status", "message", "training_status",
     "created_at", "updated_at", "started_at", "completed_at", "project", "user"}

  /** The columns the constructor must be given: Required without a default. */
  const MLJOB_REQUIRED: set<string> := {"job_id", "name", "training", "project", "user"}

  /** The keyword arguments create_mljob passes to the constructor. */
  const CREATE_MLJOB_KEYWORDS: set<string> :=
    {"name", "description", "framework", "gpu_request", "cpu_request", "memory_request", "command", "args",
     "environment", "status", "project", "user"}

  const UNKNOWN_ATTRIBUTE_TEXT := "unknown attribute"
  const REQUIRED_TEXT := "required attribute missing"

  /** The constructor refuses an undeclared keyword first, then a missing
      required column; only keywords that pass both store a row. */
  function ConstructorError(keywords: set<string>): (r: Option<string>)
    ensures r.None? <==> keywords <= MLJOB_COLUMNS && MLJOB_REQUIRED <= keywords
    ensures r.Some? ==> r.value == if keywords <= MLJOB_COLUMNS then REQUIRED_TEXT else UNKNOWN_ATTRIBUTE_TEXT
  {
    if !(keywords <= MLJOB_COLUMNS) then Some(UNKNOWN_ATTRIBUTE_TEXT)
    else if !(MLJOB_REQUIRED <= keywords) then Some(REQUIRED_TEXT)
    else None
  }

  /** The row create_mljob means to store: pending, created and updated now,
      with no times, usage or errors yet. */
  function NewJobRecord(id: nat, jobId: string, name: string, namespace: string, projectId: nat, userId: nat,
                        training: string, now: int): (j: JobRecord)
    ensures j.id == id && j.jobId == jobId && j.name == name && j.namespace == namespace
    ensures j.projectId == projectId && j.userId == userId && j.training == training
    ensures j.status == PENDING && j.createdAt == now && j.updatedAt == Some(now)
    ensures j.message.None? && j.trainingStatus.None? && j.syncErrors == 0
    ensures j.startedAt.None? && j.completedAt.None?
    ensures j.gpuUsage.None? && j.cpuUsage.None? && j.memoryUsage.None?
  {
    JobRecord(id, jobId, name, namespace, projectId, userId, training, PENDING, None, None, 0,
              now, Some(now), None, None, None, None, None)
  }

  /** create_mljob as written: the constructor sees the keywords it is
      actually passed, and a refused set stores nothing. */
  function CreateMLJobAsWritten(id: nat, jobId: string, name: string, namespace: string, projectId: nat,
                                userId: nat, training: string, now: int): Call<JobRecord> {
    match ConstructorError(CREATE_MLJOB_KEYWORDS)
    case Some(e) => Raised(Other, e)
    case None => Ok(NewJobRecord(id, jobId, name, namespace, projectId, userId, training, now))
  }

  /** As written, no job can be stored: seven keywords are not columns, and
      job_id and training, which the entity requires, are not passed. */
  lemma CreateMLJobAsWrittenAlwaysRaises(id: nat, jobId: string, name: string, namespace: string, projectId: nat,
                                         userId: nat, training: string, now: int)
    ensures CREATE_MLJOB_KEYWORDS - MLJOB_COLUMNS ==
            {"framework", "gpu_request", "cpu_request", "memory_request", "command", "args", "environment"}
    ensures MLJOB_REQUIRED - CREATE_MLJOB_KEYWORDS == {"job_id", "training"}
    ensures CreateMLJobAsWritten(id, jobId, name, namespace, projectId, userId, training, now) ==
            Raised(Other, UNKNOWN_ATTRIBUTE_TEXT)
  {
    assert "framework" in CREATE_MLJOB_KEYWORDS - MLJOB_COLUMNS;
    assert "job_id" !in CREATE_MLJOB_KEYWORDS;
    assert "training" !in CREATE_MLJOB_KEYWORDS;
  }

  class Backend {
    var users: seq<UserRecord>
    var projects: seq<ProjectRecord>
    var jobs: seq<JobRecord>
    var nextJobId: nat

    /** Primary keys are below the next key to hand out, hence unique. */
    ghost predicate Valid()
      reads this
    {
      (forall i :: 0 <= i < |jobs| ==> jobs[i].id < nextJobId) &&
      (forall i, k :: 0 <= i < k < |jobs| ==> jobs[i].id != jobs[k].id)
    }

    constructor ()
      ensures Valid()
      ensures users == [] && projects == [] && jobs == []
    {
      users, projects, jobs, nextJobId := [], [], [], 0;
    }

    /** create_mljob as intended: a new row with a fresh key and status
        pending, stored after every earlier row. */
    method CreateMLJob(jobId: string, name: string, namespace: string, projectId: nat, userId: nat,
                       training: string, now: int) returns (job: JobRecord)
      requires Valid()
      modifies this
      ensures Valid()
      ensures job == NewJobRecord(old(nextJobId), jobId, name, namespace, projectId, userId, training, now)
      ensures job.id !in set i | 0 <= i < |old(jobs)| :: old(jobs)[i].id
      ensures jobs == old(jobs) + [job]
      ensures users == old(users) && projects == old(projects)
    {
      job := NewJobRecord(nextJobId, jobId, name, namespace, projectId, userId, training, now);
      jobs := jobs + [job];
      nextJobId := nextJobId + 1;
    }

    /** get_mljob */
    function GetMLJob(id: nat): (r: Option<JobRecord>)
      reads this
      ensures r.Some? <==> exists i :: 0 <= i < |jobs| && jobs[i].id == id
      ensures r.Some? ==> r.value in jobs && r.value.id == id
    {
      match FindJob(jobs, id)
      case None => None
      case Some(i) => Some(jobs[i])
    }

    /** update_mljob_status: an unknown key changes nothing and answers
      None; otherwise the row is updated in place and returned. */
    method UpdateMLJobStatus(id: nat, status: string, now: int) returns (r: Option<JobRecord>)
      requires Valid()
      modifies this
      ensures Valid()
      ensures FindJob(old(jobs), id).None? ==> r.None? && jobs == old(jobs)
      ensures FindJob(old(jobs), id).Some? ==>
                var i := FindJob(old(jobs), id).value;
                r == Some(WithStatus(old(jobs)[i], status, now)) && jobs == old(jobs)[i := r.value]
      ensures users == old(users) && projects == old(projects) && nextJobId == old(nextJobId)
    {
      match FindJob(jobs, id) {
        case None =>
          r := None;
        case Some(i) =>
          var updated := WithStatus(jobs[i], status, now);
          jobs := jobs[i := updated];
          r := Some(updated);
      }
    }

    /** get_users, get_projects, get_mljobs: the rows from offset `skip`,
        at most `limit` of them, in table order. */
    function GetUsers(skip: nat, limit: nat): (r: seq<UserRecord>)
      reads this
      ensures r == users[Clamp(skip, |users|)..Clamp(skip + limit, |users|)]
    {
      Page(users, skip, limit)
    }

    function GetProjects(skip: nat, limit: nat): (r: seq<ProjectRecord>)
      reads this
      ensures r == projects[Clamp(skip, |projects|)..Clamp(skip + limit, |projects|)]
    {
      Page(projects, skip, limit)
    }

    function GetMLJobs(skip: nat, limit: nat): (r: seq<JobRecord>)
      reads this
      ensures r == jobs[Clamp(skip, |jobs|)..Clamp(skip + limit, |jobs|)]
    {
      Page(jobs, skip, limit)
    }

    /** get_user_projects, get_project_mljobs, get_user_mljobs: the same
        window over the rows that match. */
    function GetUserProjects(userId: nat, skip: nat, limit: nat): (r: seq<ProjectRecord>)
      reads this
      ensures var rows := OwnedProjects(projects, userId);
              r == rows[Clamp(skip, |rows|)..Clamp(skip + limit, |rows|)]
      ensures forall p :: p in r ==> p in projects && p.ownerId == userId
    {
      Page(OwnedProjects(projects, userId), skip, limit)
    }

    function GetProjectMLJobs(projectId: nat, skip: nat, limit: nat): (r: seq<JobRecord>)
      reads this
      ensures var rows := ProjectJobs(jobs, projectId);
              r == rows[Clamp(skip, |rows|)..Clamp(skip + limit, |rows|)]
      ensures forall j :: j in r ==> j in jobs && j.projectId == projectId
      ensures |r| <= limit
    {
      Page(ProjectJobs(jobs, projectId), skip, limit)
    }

    function GetUserMLJobs(userId: nat, skip: nat, limit: nat): (r: seq<JobRecord>)
      reads this
      ensures var rows := UserJobs(jobs, userId);
              r == rows[Clamp(skip, |rows|)..Clamp(skip + limit, |rows|)]
      ensures forall j :: j in r ==> j in jobs && j.userId == userId
    {
      Page(UserJobs(jobs, userId), skip, limit)
    }

    function GetProject(id: nat): Option<ProjectRecord>
      reads this
    {
      FindProject(projects, id)
    }
  }
}
