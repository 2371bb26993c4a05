/** The web service's two periodic sweeps over the MLJob table and the
    job-count gate of its create endpoint. The sweeps compare statuses with
    capitalised names while the rows they fail get a lowercase "failed", so
    such a row stays live for them. What the cluster answers is a parameter
    per row. */
module App {
  import opened Wrappers
  import opened JobStore
  import Quantity

  const SYNC_BATCH_SIZE: nat := 50
  const SYNC_ERROR_THRESHOLD: nat := 3
  const MAX_JOB_AGE_DAYS := 30
  const DAY := 86400
  const FAILED := "failed"
  const ATTEMPTS_PREFIX := "Failed to sync status after "
  const ATTEMPTS_SUFFIX := " attempts"
  const LOST_TEXT := "Kubernetes resource lost and recreation failed"

  /** The statuses both sweeps leave alone. */
  predicate TerminalCapitalised(status: string) {
    status == "Succeeded" || status == "Failed" || status == "Deleted"
  }

  /** The positions of the live rows, in table order. */
  function LiveIndices(jobs: seq<JobRecord>): (r: seq<nat>)
    ensures forall a, b :: 0 <= a < b < |r| ==> r[a] < r[b]
    ensures forall k :: k in r ==> k < |jobs|
    ensures forall k :: 0 <= k < |jobs| ==> (k in r <==> !TerminalCapitalised(jobs[k].status))
  {
    if jobs == [] then []
    else
      var prefix := LiveIndices(jobs[..|jobs| - 1]);
      assert forall a :: 0 <= a < |prefix| ==> prefix[a] in prefix;
      if TerminalCapitalised(jobs[|jobs| - 1].status) then prefix else prefix + [|jobs| - 1]
  }

  // ---------------------------------------------------------------- sync_job_status timer

  /** One live job in the sync timer: `outcome` is whether the sync call
      raised. A failure counts an error and, at the threshold, fails the job
      with the number of attempts in its message. */
  function TimerSyncOne(j: JobRecord, outcome: Call<()>): (r: JobRecord)
    ensures r.id == j.id
    ensures outcome.Ok? ==> r == j
    ensures !outcome.Ok? ==> r.syncErrors == j.syncErrors + 1
    ensures !outcome.Ok? && r.syncErrors < SYNC_ERROR_THRESHOLD ==> r == j.(syncErrors := r.syncErrors)
    ensures !outcome.Ok? && r.syncErrors >= SYNC_ERROR_THRESHOLD ==>
              r == j.(syncErrors := r.syncErrors, status := FAILED,
                      message := Some(ATTEMPTS_PREFIX + Quantity.ShowNat(r.syncErrors) + ATTEMPTS_SUFFIX))
  {
    if outcome.Ok? then j
    else
      var errors := j.syncErrors + 1;
      if errors >= SYNC_ERROR_THRESHOLD then
        j.(syncErrors := errors, status := FAILED,
           message := Some(ATTEMPTS_PREFIX + Quantity.ShowNat(errors) + ATTEMPTS_SUFFIX))
      else j.(syncErrors := errors)
  }

  function TimerSyncStep(j: JobRecord, outcome: Call<()>): JobRecord {
    if TerminalCapitalised(j.status) then j else TimerSyncOne(j, outcome)
  }

  /** The rows listed in `done` are swept, the others as they were. */
  ghost predicate SweptRows(start: seq<JobRecord>, cur: seq<JobRecord>, done: seq<nat>, outcomes: JobRecord -> Call<()>)
    requires |start| == |cur|
  {
    forall m :: 0 <= m < |cur| ==> cur[m] == if m in done then TimerSyncOne(start[m], outcomes(start[m])) else start[m]
  }

  /** The sync timer: the live rows are walked in batches of fifty, and
      every live row is swept exactly once. */
  method SyncTimer(db: Backend, outcomes: JobRecord -> Call<()>)
    requires db.Valid()
    modifies db
    ensures db.Valid()
    ensures |db.jobs| == |old(db.jobs)|
    ensures forall m :: 0 <= m < |db.jobs| ==> db.jobs[m] == TimerSyncStep(old(db.jobs)[m], outcomes(old(db.jobs)[m]))
    ensures db.users == old(db.users) && db.projects == old(db.projects) && db.nextJobId == old(db.nextJobId)
  {
    ghost var start := db.jobs;
    var live := LiveIndices(db.jobs);
    var i := 0;
    while i < |live|
      invariant |db.jobs| == |start| && 0 <= i
      invariant SweptRows(start, db.jobs, live[..if i < |live| then i else |live|], outcomes)
      invariant forall m :: 0 <= m < |db.jobs| ==> db.jobs[m].id == start[m].id
      invariant db.users == old(db.users) && db.projects == old(db.projects) && db.nextJobId == old(db.nextJobId)
    {
      var end := if i + SYNC_BATCH_SIZE < |live| then i + SYNC_BATCH_SIZE else |live|;
      var k := i;
      while k < end
        invariant i <= k <= end <= |live| && |db.jobs| == |start|
        invariant SweptRows(start, db.jobs, live[..k], outcomes)
        invariant forall m :: 0 <= m < |db.jobs| ==> db.jobs[m].id == start[m].id
        invariant db.users == old(db.users) && db.projects == old(db.projects) && db.nextJobId == old(db.nextJobId)
      {
        SweepLiveRow(db, start, live, k, outcomes);
        k := k + 1;
      }
      i := i + SYNC_BATCH_SIZE;
    }
    assert live[..|live|] == live;
  }

  /** The inner step of the sync timer: sweep the row at `live[k]`. */
  method SweepLiveRow(db: Backend, ghost start: seq<JobRecord>, live: seq<nat>, k: nat, outcomes: JobRecord -> Call<()>)
    requires k < |live| && |db.jobs| == |start|
    requires forall a, b :: 0 <= a < b < |live| ==> live[a] < live[b]
    requires forall m :: m in live ==> m < |start|
    requires SweptRows(start, db.jobs, live[..k], outcomes)
    requires forall m :: 0 <= m < |db.jobs| ==> db.jobs[m].id == start[m].id
    modifies db
    ensures |db.jobs| == |start|
    ensures SweptRows(start, db.jobs, live[..k + 1], outcomes)
    ensures forall m :: 0 <= m < |db.jobs| ==> db.jobs[m].id == start[m].id
    ensures db.users == old(db.users) && db.projects == old(db.projects) && db.nextJobId == old(db.nextJobId)
  {
    var row := live[k];
    assert row in live;
    assert row !in live[..k] by {
      forall a | 0 <= a < k ensures live[..k][a] != row { assert live[a] < live[k]; }
    }
    assert forall m :: m in live[..k + 1] <==> m in live[..k] || m == row by {
      assert live[..k + 1] == live[..k] + [row];
    }
    var job := db.jobs[row];
    db.jobs := db.jobs[row := TimerSyncOne(job, outcomes(job))];
  }

  /** A row the timer failed keeps being swept: its lowercase status is not
      one of the capitalised ones, so the next failure counts again and
      rewrites the message. */
  lemma FailedRowIsSweptAgain(j: JobRecord, first: Call<()>, second: Call<()>)
    requires !TerminalCapitalised(j.status) && !first.Ok? && !second.Ok?
    requires j.syncErrors + 1 >= SYNC_ERROR_THRESHOLD
    ensures var once := TimerSyncStep(j, first);
            once.status == FAILED &&
            TimerSyncStep(once, second).syncErrors == j.syncErrors + 2 &&
            TimerSyncStep(once, second).message == Some(ATTEMPTS_PREFIX + Quantity.ShowNat(j.syncErrors + 2) + ATTEMPTS_SUFFIX)
  {
  }

  // ---------------------------------------------------------------- cleanup_resources timer

  /** Part one selects terminal rows last updated before the cutoff; a
      missing update time never compares. */
  predicate Expired(j: JobRecord, now: int) {
    TerminalCapitalised(j.status) && j.updatedAt.Some? && j.updatedAt.value < now - MAX_JOB_AGE_DAYS * DAY
  }

  /** The table after part one: the expired rows are gone. */
  function WithoutExpired(jobs: seq<JobRecord>, now: int): (r: seq<JobRecord>)
    ensures |r| <= |jobs|
    ensures forall j :: multiset(r)[j] == if Expired(j, now) then 0 else multiset(jobs)[j]
    ensures forall j :: j in r <==> j in jobs && !Expired(j, now)
  {
    FilterCounts(jobs, Unexpired(now));
    Filter(jobs, Unexpired(now))
  }

  function Unexpired(now: int): JobRecord -> bool {
    (j: JobRecord) => !Expired(j, now)
  }

  /** The rows kept stay in table order. */
  lemma WithoutExpiredAppend(jobs: seq<JobRecord>, j: JobRecord, now: int)
    ensures WithoutExpired(jobs + [j], now) == WithoutExpired(jobs, now) + (if Expired(j, now) then [] else [j])
  {
    FilterAppend(jobs, j, Unexpired(now));
  }

  /** Removing rows keeps the keys distinct and below the next one. */
  lemma WithoutExpiredKeepsKeys(jobs: seq<JobRecord>, now: int, bound: nat)
    requires KeysDistinct(jobs) && forall a :: 0 <= a < |jobs| ==> jobs[a].id < bound
    ensures var r := WithoutExpired(jobs, now);
            KeysDistinct(r) && forall a :: 0 <= a < |r| ==> r[a].id < bound
  {
    FilterKeepsKeys(jobs, Unexpired(now), bound);
  }

  /** The loop that walks the selected rows and deletes each one. */
  method KeepUnexpired(rows: seq<JobRecord>, now: int) returns (kept: seq<JobRecord>)
    ensures kept == WithoutExpired(rows, now)
  {
    kept := [];
    var i := 0;
    while i < |rows|
      invariant 0 <= i <= |rows|
      invariant kept == WithoutExpired(rows[..i], now)
    {
      assert rows[..i + 1] == rows[..i] + [rows[i]];
      WithoutExpiredAppend(rows[..i], rows[i], now);
      if !Expired(rows[i], now) {
        kept := kept + [rows[i]];
      }
      i := i + 1;
    }
    assert rows[..|rows|] == rows;
  }

  /** Part one: every expired row is deleted from the table, whatever the
      cluster answered to the delete of its resource. */
  method RemoveExpired(db: Backend, now: int)
    requires db.Valid()
    modifies db
    ensures db.Valid()
    ensures db.jobs == WithoutExpired(old(db.jobs), now)
    ensures db.users == old(db.users) && db.projects == old(db.projects) && db.nextJobId == old(db.nextJobId)
  {
    var kept := KeepUnexpired(db.jobs, now);
    WithoutExpiredKeepsKeys(db.jobs, now, db.nextJobId);
    db.jobs := kept;
  }

  /** Part two for one live row: `listed` is the number of cluster
      resources found for it, `recreated` whether reading its training and
      recreating the resource went through. A row whose resource is missing
      is failed once out of sync, recreated otherwise; an exception leaves
      the row as it was. */
  function CheckConsistency(j: JobRecord, listed: Call<nat>, recreated: Call<()>): (r: JobRecord)
    ensures r.id == j.id
    ensures listed != Ok(0) ==> r == j
    ensures listed == Ok(0) && j.syncErrors >= SYNC_ERROR_THRESHOLD ==>
              r == j.(status := FAILED, message := Some(LOST_TEXT))
    ensures listed == Ok(0) && j.syncErrors < SYNC_ERROR_THRESHOLD ==>
              r == if recreated.Ok? then j.(syncErrors := j.syncErrors + 1) else j
  {
    if listed != Ok(0) then j
    else if j.syncErrors >= SYNC_ERROR_THRESHOLD then j.(status := FAILED, message := Some(LOST_TEXT))
    else if recreated.Ok? then j.(syncErrors := j.syncErrors + 1)
    else j
  }

  function ConsistencyStep(j: JobRecord, listed: Call<nat>, recreated: Call<()>): JobRecord {
    if TerminalCapitalised(j.status) then j else CheckConsistency(j, listed, recreated)
  }

  /** Part two: every live row is checked once with its own answers. */
  method CheckConsistencyAll(db: Backend, listing: JobRecord -> Call<nat>, recreate: JobRecord -> Call<()>)
    requires db.Valid()
    modifies db
    ensures db.Valid()
    ensures |db.jobs| == |old(db.jobs)|
    ensures forall k :: 0 <= k < |db.jobs| ==>
              db.jobs[k] == ConsistencyStep(old(db.jobs)[k], listing(old(db.jobs)[k]), recreate(old(db.jobs)[k]))
    ensures db.users == old(db.users) && db.projects == old(db.projects) && db.nextJobId == old(db.nextJobId)
  {
    ghost var start := db.jobs;
    var i := 0;
    while i < |db.jobs|
      invariant 0 <= i <= |db.jobs| == |start|
      invariant forall k :: 0 <= k < i ==> db.jobs[k] == ConsistencyStep(start[k], listing(start[k]), recreate(start[k]))
      invariant forall k :: i <= k < |db.jobs| ==> db.jobs[k] == start[k]
      invariant db.users == old(db.users) && db.projects == old(db.projects) && db.nextJobId == old(db.nextJobId)
    {
      var job := db.jobs[i];
      db.jobs := db.jobs[i := ConsistencyStep(job, listing(job), recreate(job))];
      i := i + 1;
    }
  }

  /** The clean-up timer: part one, then part two over what is left. */
  method CleanupTimer(db: Backend, listing: JobRecord -> Call<nat>, recreate: JobRecord -> Call<()>, now: int)
    requires db.Valid()
    modifies db
    ensures db.Valid()
    ensures |db.jobs| == |WithoutExpired(old(db.jobs), now)|
    ensures forall k :: 0 <= k < |db.jobs| ==>
              var j := WithoutExpired(old(db.jobs), now)[k];
              db.jobs[k] == ConsistencyStep(j, listing(j), recreate(j))
    ensures db.users == old(db.users) && db.projects == old(db.projects) && db.nextJobId == old(db.nextJobId)
  {
    RemoveExpired(db, now);
    CheckConsistencyAll(db, listing, recreate);
  }

  // ---------------------------------------------------------------- self-healing bound

  /** Whether one check recreates the resource of `j`. */
  predicate Recreates(j: JobRecord, listed: Call<nat>, recreated: Call<()>) {
    !TerminalCapitalised(j.status) && listed == Ok(0) && j.syncErrors < SYNC_ERROR_THRESHOLD && recreated.Ok?
  }

  /** Consecutive clean-ups in which the resource of `j` stays missing:
      `attempts[s]` is how the recreation in sweep `s` would go. The result
      is the row afterwards and the number of resources recreated. */
  function MissingSweeps(j: JobRecord, attempts: seq<Call<()>>): (JobRecord, nat)
    decreases |attempts|
  {
    if attempts == [] then (j, 0)
    else
      var next := ConsistencyStep(j, Ok(0), attempts[0]);
      var rest := MissingSweeps(next, attempts[1..]);
      (rest.0, rest.1 + if Recreates(j, Ok(0), attempts[0]) then 1 else 0)
  }

  /** While its resource stays missing a live job is recreated at most as
      many times as the threshold leaves it, exactly that many (or once per
      sweep, if fewer) when every recreation goes through, and it ends up
      still live for these sweeps. */
  lemma {:induction false} RecreationsBounded(j: JobRecord, attempts: seq<Call<()>>)
    requires !TerminalCapitalised(j.status)
    decreases |attempts|
    ensures !TerminalCapitalised(MissingSweeps(j, attempts).0.status)
    ensures var budget := if j.syncErrors >= SYNC_ERROR_THRESHOLD then 0 else SYNC_ERROR_THRESHOLD - j.syncErrors;
            MissingSweeps(j, attempts).1 <= budget &&
            ((forall s :: 0 <= s < |attempts| ==> attempts[s].Ok?) ==>
               MissingSweeps(j, attempts).1 == if |attempts| < budget then |attempts| else budget)
  {
    if attempts != [] {
      var next := ConsistencyStep(j, Ok(0), attempts[0]);
      RecreationsBounded(next, attempts[1..]);
      if forall s :: 0 <= s < |attempts| ==> attempts[s].Ok? {
        assert forall s :: 0 <= s < |attempts[1..]| ==> attempts[1..][s] == attempts[s + 1];
      }
    }
  }

  // ---------------------------------------------------------------- create_new_mljob gate

  datatype Rejection = ProjectNotFound | NotEnoughPermissions | QuotaExceeded

  /** What the create endpoint answers: the new row, or the rejection. */
  datatype Created = Admitted(job: JobRecord) | Rejected(reason: Rejection)

  /** The HTTP status each rejection answers. */
  function StatusCode(r: Rejection): int {
    match r
    case ProjectNotFound => 404
    case NotEnoughPermissions => 403
    case QuotaExceeded => 400
  }

  /** The gate as written: the project's jobs are counted through the
      paged query with its default limit, so at most 100 are seen. */
  function AdmitAsWritten(project: Option<ProjectRecord>, callerId: nat, jobs: seq<JobRecord>): (r: Option<Rejection>)
    ensures Admit(project, callerId, jobs).None? ==> r.None?
    ensures project.None? || |ProjectJobs(jobs, project.value.id)| <= DEFAULT_LIMIT ==> r == Admit(project, callerId, jobs)
  {
    if project.None? then Some(ProjectNotFound)
    else if project.value.ownerId != callerId then Some(NotEnoughPermissions)
    else if |Page(ProjectJobs(jobs, project.value.id), DEFAULT_SKIP, DEFAULT_LIMIT)| >= project.value.maxJobs then Some(QuotaExceeded)
    else None
  }

  /** With a limit above 100, the gate as written admits a project that
      already has more jobs than its limit. */
  lemma AsWrittenIgnoresJobsPastFirstPage(project: ProjectRecord, jobs: seq<JobRecord>)
    requires project.maxJobs > DEFAULT_LIMIT && |ProjectJobs(jobs, project.id)| >= DEFAULT_LIMIT
    ensures AdmitAsWritten(Some(project), project.ownerId, jobs).None?
  {
  }

  /** A concrete table: 150 jobs in a project whose limit is 120. */
  lemma AsWrittenAdmitsPastLimit()
    ensures var p := ProjectRecord(1, "team", 7, 0, "0", 120);
            var jobs := seq(150, (k: nat) => JobRecord(k, "", "", "", 1, 7, "", PENDING, None, None, 0, 0, None, None, None, None, None, None));
            |ProjectJobs(jobs, 1)| == 150 > p.maxJobs && AdmitAsWritten(Some(p), 7, jobs).None?
  {
    var jobs := seq(150, (k: nat) => JobRecord(k, "", "", "", 1, 7, "", PENDING, None, None, 0, 0, None, None, None, None, None, None));
    AllOfProject(jobs, 1);
    AsWrittenIgnoresJobsPastFirstPage(ProjectRecord(1, "team", 7, 0, "0", 120), jobs);
  }

  lemma {:induction false} AllOfProject(jobs: seq<JobRecord>, projectId: nat)
    requires forall k :: 0 <= k < |jobs| ==> jobs[k].projectId == projectId
    ensures ProjectJobs(jobs, projectId) == jobs
  {
    if jobs != [] {
      AllOfProject(jobs[1..], projectId);
    }
  }

  /** The gate as intended: every job of the project counts. */
  function Admit(project: Option<ProjectRecord>, callerId: nat, jobs: seq<JobRecord>): (r: Option<Rejection>)
    ensures r == Some(ProjectNotFound) <==> project.None?
    ensures r == Some(NotEnoughPermissions) <==> project.Some? && project.value.ownerId != callerId
    ensures r.None? <==> project.Some? && project.value.ownerId == callerId &&
                         |ProjectJobs(jobs, project.value.id)| < project.value.maxJobs
  {
    if project.None? then Some(ProjectNotFound)
    else if project.value.ownerId != callerId then Some(NotEnoughPermissions)
    else if |ProjectJobs(jobs, project.value.id)| >= project.value.maxJobs then Some(QuotaExceeded)
    else None
  }

  /** create_new_mljob with the intended gate: a rejected request changes
      nothing; an admitted one adds one pending job, and the project then
      has at most its limit of jobs. */
  method CreateNewMLJob(db: Backend, projectId: nat, callerId: nat, jobId: string, name: string,
                        namespace: string, training: string, now: int) returns (r: Created)
    requires db.Valid()
    modifies db
    ensures db.Valid()
    ensures var gate := Admit(db.GetProject(projectId), callerId, old(db.jobs));
            (gate.Some? ==> r == Rejected(gate.value) && db.jobs == old(db.jobs)) &&
            (gate.None? ==> r.Admitted? && db.jobs == old(db.jobs) + [r.job] && r.job.status == PENDING)
    ensures r.Admitted? ==> |ProjectJobs(db.jobs, projectId)| <= db.GetProject(projectId).value.maxJobs
    ensures db.projects == old(db.projects)
  {
    var project := db.GetProject(projectId);
    var gate := Admit(project, callerId, db.jobs);
    if gate.Some? {
      return Rejected(gate.value);
    }
    ghost var before := db.jobs;
    var job := db.CreateMLJob(jobId, name, namespace, projectId, callerId, training, now);
    ProjectJobsAppend(before, job, projectId);
    r := Admitted(job);
  }
}
