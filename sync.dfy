/** The backend's sweeps over the MLJob table: the status sync that copies
    the cluster's view of each live job into its row, escalating to failed
    after repeated empty answers, and the clean-up that marks old and
    unsyncable jobs deleted. The cluster's answers are parameters, one per
    row; times are integer seconds. */
module Sync {
  import opened Wrappers
  import opened JobStore
  import Text

  const SYNC_ERROR_THRESHOLD: nat := 3
  const MAX_JOB_AGE_DAYS := 30
  const DAY := 86400
  const SUCCEEDED := "succeeded"
  const FAILED := "failed"
  const DELETED := "deleted"
  const UNKNOWN := "unknown"
  const SYNC_FAILED_TEXT := "Failed to sync with Kubernetes resource"
  const CLEANED_TEXT := "Resource cleaned up"
  /** str({}), the training status recorded when the cluster reports none. */
  const EMPTY_DICT_TEXT := "{}"

  /** The statuses the sync leaves alone. */
  predicate Terminal(status: string) {
    status == SUCCEEDED || status == FAILED || status == DELETED
  }

  datatype Resources = Resources(gpu: Option<int>, cpu: Option<int>, memory: Option<string>)

  /** A non-empty status dict answered by the cluster; None fields are
      absent keys. `trainingStatus` is the text str() gives of the value. */
  datatype ClusterStatus = ClusterStatus(
    phase: Option<string>,
    message: Option<string>,
    trainingStatus: Option<string>,
    resources: Option<Resources>)

  // ---------------------------------------------------------------- one job

  /** The status fields a non-empty answer sets, in the order the sweep
      writes them: the lowercased phase ("unknown" when absent), the
      message, the training status, the update time, started_at the first
      time it runs and completed_at when it succeeds or fails. Nothing else
      changes. */
  function ObservedStatus(j: JobRecord, s: ClusterStatus, now: int): (r: JobRecord)
    ensures r.id == j.id && r.updatedAt == Some(now)
    ensures r.status == Text.Lower(s.phase.GetOr(UNKNOWN)) && r.message == s.message
    ensures r.trainingStatus == Some(s.trainingStatus.GetOr(EMPTY_DICT_TEXT))
    ensures r.startedAt == if r.status == RUNNING && j.startedAt.None? then Some(now) else j.startedAt
    ensures r.completedAt == if r.status == SUCCEEDED || r.status == FAILED then Some(now) else j.completedAt
    ensures r.(status := j.status, message := j.message, trainingStatus := j.trainingStatus, updatedAt := j.updatedAt,
               startedAt := j.startedAt, completedAt := j.completedAt) == j
  {
    var status := Text.Lower(s.phase.GetOr(UNKNOWN));
    var started := if status == RUNNING && j.startedAt.None? then Some(now) else j.startedAt;
    var completed := if status == SUCCEEDED || status == FAILED then Some(now) else j.completedAt;
    j.(status := status, message := s.message, trainingStatus := Some(s.trainingStatus.GetOr(EMPTY_DICT_TEXT)),
       updatedAt := Some(now), startedAt := started, completedAt := completed)
  }

  /** The row after a non-empty answer: its status fields, the usage when
      reported, and the error count back to zero. */
  function Observed(j: JobRecord, s: ClusterStatus, now: int): (r: JobRecord)
    ensures r.id == j.id && r.syncErrors == 0 && r.updatedAt == Some(now)
    ensures r.status == Text.Lower(s.phase.GetOr(UNKNOWN)) && r.message == s.message
    ensures r.trainingStatus == Some(s.trainingStatus.GetOr(EMPTY_DICT_TEXT))
    ensures r.startedAt == if r.status == RUNNING && j.startedAt.None? then Some(now) else j.startedAt
    ensures r.completedAt == if r.status == SUCCEEDED || r.status == FAILED then Some(now) else j.completedAt
    ensures s.resources.None? ==> r.gpuUsage == j.gpuUsage && r.cpuUsage == j.cpuUsage && r.memoryUsage == j.memoryUsage
    ensures s.resources.Some? ==> r.gpuUsage == s.resources.value.gpu && r.cpuUsage == s.resources.value.cpu &&
                                  r.memoryUsage == s.resources.value.memory
    ensures r.(gpuUsage := j.gpuUsage, cpuUsage := j.cpuUsage, memoryUsage := j.memoryUsage, syncErrors := j.syncErrors) ==
            ObservedStatus(j, s, now)
  {
    var row := ObservedStatus(j, s, now);
    match s.resources
    case None => row.(syncErrors := 0)
    case Some(res) => row.(gpuUsage := res.gpu, cpuUsage := res.cpu, memoryUsage := res.memory, syncErrors := 0)
  }

  /** One job in sync_job_status. `answer` is what get_mljob_status gave:
      Ok(Some(..)) a non-empty dict, Ok(None) an empty answer, anything else
      an exception. An empty answer counts an error and fails the job at
      the threshold; an exception only counts the error. */
  function SyncOne(j: JobRecord, answer: Call<Option<ClusterStatus>>, now: int): (r: JobRecord)
    ensures r.id == j.id
    ensures answer.Ok? && answer.value.Some? ==> r.syncErrors == 0
    ensures !(answer.Ok? && answer.value.Some?) ==> r.syncErrors == j.syncErrors + 1
    ensures !answer.Ok? ==> r == j.(syncErrors := j.syncErrors + 1)
    ensures answer == Ok(None) && j.syncErrors + 1 < SYNC_ERROR_THRESHOLD ==> r == j.(syncErrors := j.syncErrors + 1)
    ensures answer == Ok(None) && j.syncErrors + 1 >= SYNC_ERROR_THRESHOLD ==>
              r == j.(syncErrors := j.syncErrors + 1, status := FAILED, message := Some(SYNC_FAILED_TEXT), completedAt := Some(now))
  {
    match answer
    case Ok(Some(s)) => Observed(j, s, now)
    case Ok(None) =>
      var errors := j.syncErrors + 1;
      if errors >= SYNC_ERROR_THRESHOLD then
        j.(syncErrors := errors, status := FAILED, message := Some(SYNC_FAILED_TEXT), completedAt := Some(now))
      else j.(syncErrors := errors)
    case _ => j.(syncErrors := j.syncErrors + 1)
  }

  /** A row in one sweep: terminal rows are not visited. */
  function SweepOne(j: JobRecord, answer: Call<Option<ClusterStatus>>, now: int): (r: JobRecord)
    ensures r.id == j.id
    ensures Terminal(j.status) ==> r == j
  {
    if Terminal(j.status) then j else SyncOne(j, answer, now)
  }

  // ---------------------------------------------------------------- sync_job_status

  /** sync_job_status: every live row is synced with its own answer, and
      one job's failure does not stop the others. */
  method SyncJobStatus(db: Backend, answers: JobRecord -> Call<Option<ClusterStatus>>, now: int)
    requires db.Valid()
    modifies db
    ensures db.Valid()
    ensures |db.jobs| == |old(db.jobs)|
    ensures forall k :: 0 <= k < |db.jobs| ==> db.jobs[k] == SweepOne(old(db.jobs)[k], answers(old(db.jobs)[k]), now)
    ensures db.users == old(db.users) && db.projects == old(db.projects) && db.nextJobId == old(db.nextJobId)
  {
    ghost var start := db.jobs;
    var i := 0;
    while i < |db.jobs|
      invariant 0 <= i <= |db.jobs| == |start|
      invariant forall k :: 0 <= k < i ==> db.jobs[k] == SweepOne(start[k], answers(start[k]), now)
      invariant forall k :: i <= k < |db.jobs| ==> db.jobs[k] == start[k]
      invariant db.users == old(db.users) && db.projects == old(db.projects) && db.nextJobId == old(db.nextJobId)
    {
      var job := db.jobs[i];
      db.jobs := db.jobs[i := SweepOne(job, answers(job), now)];
      i := i + 1;
    }
  }

  // ---------------------------------------------------------------- the sweep as written

  /** The columns the sync writes besides the status fields. */
  const SWEEP_COLUMNS: set<string> := {"sync_errors", "gpu_usage", "cpu_usage", "memory_usage"}

  /** How a visit to one job ends: the loop goes on with the row, or an
      exception escapes the job's own handler and ends the sweep, the row
      kept as far as it was written (the session still commits). */
  datatype Visit = Continue(row: JobRecord) | Abort(row: JobRecord)

  /** The job's handler: it counts the error, which raises again when the
      entity has no sync_errors column. */
  function Handler(columns: set<string>, row: JobRecord): (r: Visit)
    ensures r.row.id == row.id
    ensures r.Abort? <==> "sync_errors" !in columns
  {
    if "sync_errors" in columns then Continue(row.(syncErrors := row.syncErrors + 1)) else Abort(row)
  }

  /** One visit in sync_job_status over an entity declaring `columns`:
      writing a column the entity does not declare raises. With the sweep's
      columns declared this is SyncOne; without sync_errors every visit ends
      the sweep, and without any of them only the status fields of a
      non-empty answer are written. */
  function VisitWith(columns: set<string>, j: JobRecord, answer: Call<Option<ClusterStatus>>, now: int): (r: Visit)
    ensures r.row.id == j.id
    ensures SWEEP_COLUMNS <= columns ==> r == Continue(SyncOne(j, answer, now))
    ensures "sync_errors" !in columns ==> r.Abort?
    ensures columns !! SWEEP_COLUMNS ==>
              r == Abort(if answer.Ok? && answer.value.Some? then ObservedStatus(j, answer.value.value, now) else j)
  {
    match answer
    case Ok(Some(s)) =>
      var row := ObservedStatus(j, s, now);
      match s.resources {
        case None =>
          if "sync_errors" in columns then Continue(row.(syncErrors := 0)) else Handler(columns, row)
        case Some(res) =>
          if "gpu_usage" !in columns then Handler(columns, row)
          else if "cpu_usage" !in columns then Handler(columns, row.(gpuUsage := res.gpu))
          else if "memory_usage" !in columns then Handler(columns, row.(gpuUsage := res.gpu, cpuUsage := res.cpu))
          else if "sync_errors" !in columns then
            Handler(columns, row.(gpuUsage := res.gpu, cpuUsage := res.cpu, memoryUsage := res.memory))
          else Continue(row.(gpuUsage := res.gpu, cpuUsage := res.cpu, memoryUsage := res.memory, syncErrors := 0))
      }
    case Ok(None) =>
      if "sync_errors" in columns then Continue(SyncOne(j, answer, now)) else Handler(columns, j)
    case _ => Handler(columns, j)
  }

  /** The first row the sweep visits: the first one not terminal. */
  function FirstLive(jobs: seq<JobRecord>): (i: nat)
    ensures i <= |jobs|
    ensures forall k :: 0 <= k < i ==> Terminal(jobs[k].status)
    ensures i < |jobs| ==> !Terminal(jobs[i].status)
  {
    if jobs == [] || !Terminal(jobs[0].status) then 0 else 1 + FirstLive(jobs[1..])
  }

  /** sync_job_status as written: the entity lacks the sweep's columns, so
      the first live row is the only one visited; it keeps what was written
      before the first undeclared column, and every later row is left as it
      was. */
  method SyncJobStatusAsWritten(db: Backend, answers: JobRecord -> Call<Option<ClusterStatus>>, now: int)
    requires db.Valid()
    modifies db
    ensures db.Valid()
    ensures var start, i := old(db.jobs), FirstLive(old(db.jobs));
            db.jobs == if i == |start| then start
                       else start[i := VisitWith(MLJOB_COLUMNS, start[i], answers(start[i]), now).row]
    ensures db.users == old(db.users) && db.projects == old(db.projects) && db.nextJobId == old(db.nextJobId)
  {
    ghost var start := db.jobs;
    assert MLJOB_COLUMNS !! SWEEP_COLUMNS;
    var i := 0;
    var stopped := false;
    while i < |db.jobs| && !stopped
      invariant 0 <= i <= |db.jobs| == |start|
      invariant !stopped ==> i <= FirstLive(start) && db.jobs == start
      invariant stopped ==> 0 < i && i - 1 == FirstLive(start) &&
                            db.jobs == start[i - 1 := VisitWith(MLJOB_COLUMNS, start[i - 1], answers(start[i - 1]), now).row]
      invariant db.Valid()
      invariant db.users == old(db.users) && db.projects == old(db.projects) && db.nextJobId == old(db.nextJobId)
    {
      var job := db.jobs[i];
      if !Terminal(job.status) {
        var visit := VisitWith(MLJOB_COLUMNS, job, answers(job), now);
        db.jobs := db.jobs[i := visit.row];
        stopped := visit.Abort?;
      }
      i := i + 1;
    }
  }

  /** As written, a visit always ends the sweep: an empty answer or an
      exception leaves the row as it was, so the error count never grows and
      no job is ever failed for missing answers; a non-empty answer writes
      the status fields only. */
  lemma AsWrittenVisitEndsSweep(j: JobRecord, answer: Call<Option<ClusterStatus>>, now: int)
    ensures VisitWith(MLJOB_COLUMNS, j, answer, now) ==
            Abort(if answer.Ok? && answer.value.Some? then ObservedStatus(j, answer.value.value, now) else j)
    ensures answer == Ok(None) ==> VisitWith(MLJOB_COLUMNS, j, answer, now).row.status == j.status
  {
    assert MLJOB_COLUMNS !! SWEEP_COLUMNS;
  }

  // ---------------------------------------------------------------- escalation

  /** `n` consecutive sweeps in which the cluster answers nothing. */
  function MissedSweeps(j: JobRecord, n: nat, now: int): JobRecord {
    if n == 0 then j else SweepOne(MissedSweeps(j, n - 1, now), Ok(None), now)
  }

  /** A live job whose resource keeps answering nothing counts one error per
      sweep, and the sweep that reaches the threshold fails it; after that
      it is terminal and left alone. */
  lemma {:induction false} MissesEscalate(j: JobRecord, n: nat, now: int)
    requires !Terminal(j.status) && j.syncErrors < SYNC_ERROR_THRESHOLD
    ensures n < SYNC_ERROR_THRESHOLD - j.syncErrors ==>
              MissedSweeps(j, n, now) == j.(syncErrors := j.syncErrors + n)
    ensures n >= SYNC_ERROR_THRESHOLD - j.syncErrors ==>
              var r := MissedSweeps(j, n, now);
              r.status == FAILED && r.message == Some(SYNC_FAILED_TEXT) && r.syncErrors == SYNC_ERROR_THRESHOLD
  {
    if n > 0 {
      MissesEscalate(j, n - 1, now);
    }
  }

  /** `n` consecutive sweeps in which fetching the status raises. */
  function RaisingSweeps(j: JobRecord, n: nat, failure: Call<Option<ClusterStatus>>, now: int): JobRecord
    requires !failure.Ok?
  {
    if n == 0 then j else SweepOne(RaisingSweeps(j, n - 1, failure, now), failure, now)
  }

  /** An exception never fails a job, however often it recurs: only the
      error count grows, which is what makes the clean-up pick the job up. */
  lemma {:induction false} RaisesOnlyCount(j: JobRecord, n: nat, failure: Call<Option<ClusterStatus>>, now: int)
    requires !Terminal(j.status) && !failure.Ok?
    ensures RaisingSweeps(j, n, failure, now) == j.(syncErrors := j.syncErrors + n)
  {
    if n > 0 {
      RaisesOnlyCount(j, n - 1, failure, now);
    }
  }

  /** A job reported finished leaves the sweep for good. */
  lemma ReportedFinishIsFinal(j: JobRecord, s: ClusterStatus, now: int, later: Call<Option<ClusterStatus>>, t: int)
    requires Text.Lower(s.phase.GetOr(UNKNOWN)) in {SUCCEEDED, FAILED}
    ensures var r := SyncOne(j, Ok(Some(s)), now); SweepOne(r, later, t) == r && r.completedAt == Some(now)
  {
  }

  // ---------------------------------------------------------------- cleanup_resources

  /** The rows cleanup_resources selects: terminal and completed before the
      cutoff (a missing completion time never compares), or out of sync. */
  predicate CleanupSelected(j: JobRecord, now: int) {
    (Terminal(j.status) && j.completedAt.Some? && j.completedAt.value < now - MAX_JOB_AGE_DAYS * DAY) ||
    j.syncErrors >= SYNC_ERROR_THRESHOLD
  }

  /** A selected row after the cluster delete answered `deleted`: marked
      deleted when the delete went through, untouched when it raised. */
  function CleanOne(j: JobRecord, deleted: Call<()>, now: int): (r: JobRecord)
    ensures r.id == j.id && r.syncErrors == j.syncErrors && r.completedAt == j.completedAt
    ensures deleted.Ok? ==> r.status == DELETED && r.message == Some(CLEANED_TEXT) && r.updatedAt == Some(now)
    ensures !deleted.Ok? ==> r == j
  {
    if deleted.Ok? then j.(status := DELETED, message := Some(CLEANED_TEXT), updatedAt := Some(now)) else j
  }

  function CleanupStep(j: JobRecord, deleted: Call<()>, now: int): (r: JobRecord)
    ensures r.id == j.id
    ensures !CleanupSelected(j, now) ==> r == j
  {
    if CleanupSelected(j, now) then CleanOne(j, deleted, now) else j
  }

  /** cleanup_resources: every selected row is cleaned with its own delete
      answer; the rows stay in the table. */
  method CleanupResources(db: Backend, deletes: JobRecord -> Call<()>, now: int)
    requires db.Valid()
    modifies db
    ensures db.Valid()
    ensures |db.jobs| == |old(db.jobs)|
    ensures forall k :: 0 <= k < |db.jobs| ==> db.jobs[k] == CleanupStep(old(db.jobs)[k], deletes(old(db.jobs)[k]), now)
    ensures db.users == old(db.users) && db.projects == old(db.projects) && db.nextJobId == old(db.nextJobId)
  {
    ghost var start := db.jobs;
    var i := 0;
    while i < |db.jobs|
      invariant 0 <= i <= |db.jobs| == |start|
      invariant forall k :: 0 <= k < i ==> db.jobs[k] == CleanupStep(start[k], deletes(start[k]), now)
      invariant forall k :: i <= k < |db.jobs| ==> db.jobs[k] == start[k]
      invariant db.users == old(db.users) && db.projects == old(db.projects) && db.nextJobId == old(db.nextJobId)
    {
      var job := db.jobs[i];
      db.jobs := db.jobs[i := CleanupStep(job, deletes(job), now)];
      i := i + 1;
    }
  }

  /** The selection as a row test. */
  function SelectedAt(now: int): JobRecord -> bool {
    (j: JobRecord) => CleanupSelected(j, now)
  }

  /** The clean-up's query over an entity declaring `columns`: it names
      sync_errors, and without that column it fails to translate. */
  function CleanupQuery(columns: set<string>, jobs: seq<JobRecord>, now: int): (r: Option<seq<JobRecord>>)
    ensures r.None? <==> "sync_errors" !in columns
    ensures r.Some? ==> forall j :: j in r.value <==> j in jobs && CleanupSelected(j, now)
  {
    if "sync_errors" !in columns then None
    else
      FilterCounts(jobs, SelectedAt(now));
      var rows := Filter(jobs, SelectedAt(now));
      assert forall j :: j in rows <==> multiset(rows)[j] > 0;
      assert forall j :: j in jobs <==> multiset(jobs)[j] > 0;
      Some(rows)
  }

  /** As written the query always fails: the outer handler swallows the
      error, so cleanup_resources deletes no cluster resource and changes no
      row, and no job ever leaves the table's live rows this way. */
  lemma CleanupAsWrittenSelectsNothing(jobs: seq<JobRecord>, now: int)
    ensures CleanupQuery(MLJOB_COLUMNS, jobs, now).None?
    ensures CleanupQuery(MLJOB_COLUMNS + {"sync_errors"}, jobs, now).Some?
  {
    assert "sync_errors" !in MLJOB_COLUMNS;
  }

  /** A cleaned row stays selected: every later clean-up asks the cluster
      to delete its resource again. */
  lemma CleanedStaysSelected(j: JobRecord, deleted: Call<()>, now: int, later: int)
    requires CleanupSelected(j, now) && now <= later
    ensures CleanupSelected(CleanOne(j, deleted, now), later)
  {
  }

  /** _should_cleanup_job: a terminal job with a completion time is judged
      by its age in whole days alone; any other job by its error count. */
  function ShouldCleanupJob(j: JobRecord, now: int): (r: bool)
    ensures Terminal(j.status) && j.completedAt.Some? ==>
              (r <==> now - j.completedAt.value >= MAX_JOB_AGE_DAYS * DAY)
    ensures !(Terminal(j.status) && j.completedAt.Some?) ==> (r <==> j.syncErrors >= SYNC_ERROR_THRESHOLD)
  {
    if Terminal(j.status) && j.completedAt.Some? then
      DaysAtLeast(now - j.completedAt.value);
      (now - j.completedAt.value) / DAY >= MAX_JOB_AGE_DAYS
    else j.syncErrors >= SYNC_ERROR_THRESHOLD
  }

  /** Whole days reach the age limit exactly when the seconds do. */
  lemma DaysAtLeast(age: int)
    ensures age / DAY >= MAX_JOB_AGE_DAYS <==> age >= MAX_JOB_AGE_DAYS * DAY
  {
    var q, r := age / DAY, age % DAY;
    assert age == DAY * q + r && 0 <= r < DAY;
  }

  /** The predicate and the query disagree exactly on terminal jobs
      completed exactly 30 days ago without errors (the predicate cleans,
      the query does not) and on younger terminal jobs out of sync (the
      query cleans, the predicate does not). */
  lemma ShouldCleanupJobVersusSelection(j: JobRecord, now: int)
    ensures ShouldCleanupJob(j, now) != CleanupSelected(j, now) <==>
              Terminal(j.status) && j.completedAt.Some? &&
              ((now - j.completedAt.value == MAX_JOB_AGE_DAYS * DAY && j.syncErrors < SYNC_ERROR_THRESHOLD) ||
               (now - j.completedAt.value < MAX_JOB_AGE_DAYS * DAY && j.syncErrors >= SYNC_ERROR_THRESHOLD))
  {
    if j.completedAt.Some? {
      DaysAtLeast(now - j.completedAt.value);
    }
  }
}
