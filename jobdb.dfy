/** The command-line tool's job database: jobs keyed by (name, namespace),
    created from a job spec, updated and soft-deleted in place, looked up
    and listed with optional filters. Times are integer seconds. */
module JobDb {
  import opened Wrappers

  /** The keys of a job spec that create_job reads; None when absent. */
  datatype SpecInput = SpecInput(
    framework: Option<string>,
    frameworkVersion: Option<string>,
    distributedEnabled: Option<bool>,
    workerReplicas: Option<int>,
    psReplicas: Option<int>,
    chiefReplicas: Option<int>,
    image: Option<string>,
    command: Option<seq<string>>,
    args: Option<seq<string>>,
    env: Option<seq<string>>,
    resources: Option<map<string, string>>)

  datatype Job = Job(
    name: string,
    namespace: string,
    framework: string,
    frameworkVersion: string,
    distributed: bool,
    workerReplicas: int,
    psReplicas: int,
    chiefReplicas: int,
    image: string,
    command: seq<string>,
    args: seq<string>,
    env: seq<string>,
    resources: map<string, string>,
    status: string,
    createdAt: int,
    updatedAt: int,
    completedAt: Option<int>,
    errorMessage: Option<string>)

  type Key = (string, string)

  const CREATED := "created"
  const DELETED := "deleted"
  const DEFAULT_WORKER_REPLICAS := 1
  const DUPLICATE_KEY_TEXT := "duplicate (name, namespace)"
  const REQUIRED_TEXT := "required attribute missing"
  const UNKNOWN_ATTRIBUTE_TEXT := "unknown attribute"

  /** A filter or message argument is used only when it is truthy. */
  predicate Given(s: Option<string>) {
    s.Some? && s.value != []
  }

  // ---------------------------------------------------------------- create_job

  /** The record create_job builds: the spec's values, with '' for the
      framework version, no distribution, one worker and no parameter
      servers or chief when the spec omits them, and status created. */
  function NewJob(name: string, namespace: string, spec: SpecInput, now: int): (job: Job)
    requires spec.framework.Some? && spec.image.Some?
    ensures job.name == name && job.namespace == namespace && job.status == CREATED
    ensures job.framework == spec.framework.value && job.image == spec.image.value
    ensures spec.frameworkVersion.None? ==> job.frameworkVersion == ""
    ensures spec.distributedEnabled.None? ==> !job.distributed
    ensures spec.workerReplicas.None? ==> job.workerReplicas == DEFAULT_WORKER_REPLICAS
    ensures spec.psReplicas.None? ==> job.psReplicas == 0
    ensures spec.chiefReplicas.None? ==> job.chiefReplicas == 0
    ensures spec.command.None? ==> job.command == []
    ensures spec.workerReplicas.Some? ==> job.workerReplicas == spec.workerReplicas.value
    ensures spec.frameworkVersion.Some? ==> job.frameworkVersion == spec.frameworkVersion.value
    ensures spec.distributedEnabled.Some? ==> job.distributed == spec.distributedEnabled.value
    ensures spec.psReplicas.Some? ==> job.psReplicas == spec.psReplicas.value
    ensures spec.chiefReplicas.Some? ==> job.chiefReplicas == spec.chiefReplicas.value
    ensures spec.command.Some? ==> job.command == spec.command.value
    ensures job.args == spec.args.GetOr([]) && job.env == spec.env.GetOr([])
    ensures job.resources == spec.resources.GetOr(map[])
    ensures job.createdAt == now && job.updatedAt == now && job.completedAt.None? && job.errorMessage.None?
  {
    Job(name, namespace, spec.framework.value, spec.frameworkVersion.GetOr(""),
        spec.distributedEnabled.GetOr(false), spec.workerReplicas.GetOr(DEFAULT_WORKER_REPLICAS),
        spec.psReplicas.GetOr(0), spec.chiefReplicas.GetOr(0), spec.image.value,
        spec.command.GetOr([]), spec.args.GetOr([]), spec.env.GetOr([]), spec.resources.GetOr(map[]),
        CREATED, now, now, None, None)
  }

  /** The attributes the stored entity declares, and the keyword arguments
      create_job passes to its constructor. */
  const ENTITY_ATTRIBUTES: set<string> :=
    {"name", "namespace", "framework", "framework_version", "distributed", "worker_replicas", "ps_replicas",
     "image", "command", "args", "resources", "status", "created_at", "updated_at", "completed_at", "error_message"}
  const CREATE_KEYWORDS: set<string> :=
    {"name", "namespace", "framework", "framework_version", "distributed", "worker_replicas", "ps_replicas",
     "chief_replicas", "image", "command", "args", "env", "resources", "status", "created_at", "updated_at"}

  /** create_job as written: the entity refuses a keyword it does not
      declare before any row is stored. */
  function CreateJobAsWritten(name: string, namespace: string, spec: SpecInput, now: int): Call<Job> {
    if CREATE_KEYWORDS - ENTITY_ATTRIBUTES != {} then Raised(Other, UNKNOWN_ATTRIBUTE_TEXT)
    else if spec.framework.None? || spec.image.None? then Raised(Other, REQUIRED_TEXT)
    else Ok(NewJob(name, namespace, spec, now))
  }

  /** As written, no job can be created: chief_replicas and env are not
      attributes of the entity. */
  lemma CreateJobAsWrittenAlwaysRaises(name: string, namespace: string, spec: SpecInput, now: int)
    ensures CREATE_KEYWORDS - ENTITY_ATTRIBUTES == {"chief_replicas", "env"}
    ensures CreateJobAsWritten(name, namespace, spec, now).Raised?
  {
    assert "chief_replicas" in CREATE_KEYWORDS - ENTITY_ATTRIBUTES;
    assert "env" in CREATE_KEYWORDS - ENTITY_ATTRIBUTES;
  }

  class JobDatabase {
    var jobs: map<Key, Job>

    /** Every row is stored under its own (name, namespace). */
    ghost predicate Valid()
      reads this
    {
      forall k :: k in jobs ==> jobs[k].name == k.0 && jobs[k].namespace == k.1
    }

    constructor ()
      ensures Valid() && jobs == map[]
    {
      jobs := map[];
    }

    /** create_job with the chief and env attributes stored: a taken key
      or a missing framework or image raises and stores nothing; otherwise
      the new row is stored under its key. */
    method CreateJob(name: string, namespace: string, spec: SpecInput, now: int) returns (r: Call<Job>)
      requires Valid()
      modifies this
      ensures Valid()
      ensures (name, namespace) in old(jobs) ==> r == Raised(Other, DUPLICATE_KEY_TEXT) && jobs == old(jobs)
      ensures (name, namespace) !in old(jobs) && (spec.framework.None? || spec.image.None?) ==>
                r == Raised(Other, REQUIRED_TEXT) && jobs == old(jobs)
      ensures r.Ok? <==> (name, namespace) !in old(jobs) && spec.framework.Some? && spec.image.Some?
      ensures r.Ok? ==> r.value == NewJob(name, namespace, spec, now) && jobs == old(jobs)[(name, namespace) := r.value]
    {
      if (name, namespace) in jobs {
        return Raised(Other, DUPLICATE_KEY_TEXT);
      }
      if spec.framework.None? || spec.image.None? {
        return Raised(Other, REQUIRED_TEXT);
      }
      var job := NewJob(name, namespace, spec, now);
      jobs := jobs[(name, namespace) := job];
      r := Ok(job);
    }

    /** get_job */
    function GetJob(name: string, namespace: string): (r: Option<Job>)
      reads this
      ensures r.Some? <==> (name, namespace) in jobs
      ensures r.Some? ==> r.value == jobs[(name, namespace)]
    {
      if (name, namespace) in jobs then Some(jobs[(name, namespace)]) else None
    }

    /** update_job_status: an unknown key changes nothing and answers None;
        otherwise the row is updated in place and returned. */
    method UpdateJobStatus(name: string, namespace: string, status: string, errorMessage: Option<string>, now: int)
      returns (r: Option<Job>)
      requires Valid()
      modifies this
      ensures Valid()
      ensures (name, namespace) !in old(jobs) ==> r.None? && jobs == old(jobs)
      ensures (name, namespace) in old(jobs) ==>
                r == Some(WithStatus(old(jobs)[(name, namespace)], status, errorMessage, now)) &&
                jobs == old(jobs)[(name, namespace) := r.value]
    {
      if (name, namespace) !in jobs {
        return None;
      }
      var job := WithStatus(jobs[(name, namespace)], status, errorMessage, now);
      jobs := jobs[(name, namespace) := job];
      r := Some(job);
    }

    /** delete_job: a soft delete; the row stays, marked deleted and
        completed. An unknown key answers None. */
    method DeleteJob(name: string, namespace: string, now: int) returns (r: Option<Job>)
      requires Valid()
      modifies this
      ensures Valid()
      ensures jobs.Keys == old(jobs).Keys
      ensures (name, namespace) !in old(jobs) ==> r.None? && jobs == old(jobs)
      ensures (name, namespace) in old(jobs) ==>
                r == Some(SoftDeleted(old(jobs)[(name, namespace)], now)) &&
                jobs == old(jobs)[(name, namespace) := r.value]
    {
      if (name, namespace) !in jobs {
        return None;
      }
      var job := SoftDeleted(jobs[(name, namespace)], now);
      jobs := jobs[(name, namespace) := job];
      r := Some(job);
    }

    /** list_jobs */
    function ListJobs(namespace: Option<string>, status: Option<string>, framework: Option<string>): (r: set<Job>)
      reads this
      ensures forall j :: j in r <==> j in jobs.Values && Matches(j, namespace, status, framework)
    {
      set k | k in jobs && Matches(jobs[k], namespace, status, framework) :: jobs[k]
    }
  }

  /** The fields update_job_status writes: status and update time always,
      the completion time for completed and failed, the error message only
      when one is given. */
  function WithStatus(job: Job, status: string, errorMessage: Option<string>, now: int): (r: Job)
    ensures r.status == status && r.updatedAt == now
    ensures r.completedAt == if status == "completed" || status == "failed" then Some(now) else job.completedAt
    ensures r.errorMessage == if Given(errorMessage) then errorMessage else job.errorMessage
    ensures r.(status := job.status, updatedAt := job.updatedAt, completedAt := job.completedAt,
               errorMessage := job.errorMessage) == job
  {
    job.(status := status, updatedAt := now,
         completedAt := if status == "completed" || status == "failed" then Some(now) else job.completedAt,
         errorMessage := if Given(errorMessage) then errorMessage else job.errorMessage)
  }

  /** A later update without a message keeps the message an earlier one
      recorded. */
  lemma ErrorMessageSticks(job: Job, s1: string, s2: string, message: string, t1: int, t2: int)
    requires message != []
    ensures WithStatus(WithStatus(job, s1, Some(message), t1), s2, None, t2).errorMessage == Some(message)
    ensures WithStatus(WithStatus(job, s1, Some(message), t1), s2, Some(""), t2).errorMessage == Some(message)
  {
  }

  function SoftDeleted(job: Job, now: int): (r: Job)
    ensures r.status == DELETED && r.updatedAt == now && r.completedAt == Some(now)
    ensures r.name == job.name && r.namespace == job.namespace && r.errorMessage == job.errorMessage
  {
    job.(status := DELETED, updatedAt := now, completedAt := Some(now))
  }

  /** Whether a row passes the given filters; an omitted or empty filter
      does not restrict. */
  predicate Matches(j: Job, namespace: Option<string>, status: Option<string>, framework: Option<string>) {
    (!Given(namespace) || j.namespace == namespace.value) &&
    (!Given(status) || j.status == status.value) &&
    (!Given(framework) || j.framework == framework.value)
  }

  /** The filters are conjunctive: listing with several is the intersection
      of listing with each alone, and listing with none lists every row. */
  lemma ListJobsConjunctive(db: JobDatabase, namespace: Option<string>, status: Option<string>, framework: Option<string>)
    ensures db.ListJobs(namespace, status, framework) ==
            db.ListJobs(namespace, None, None) * db.ListJobs(None, status, None) * db.ListJobs(None, None, framework)
    ensures db.ListJobs(None, None, None) == db.jobs.Values
  {
  }

  /** A soft-deleted job is still found, and listed under status deleted. */
  lemma DeletedJobIsListed(db: JobDatabase, job: Job, now: int)
    requires db.Valid() && (job.name, job.namespace) in db.jobs && db.jobs[(job.name, job.namespace)] == SoftDeleted(job, now)
    ensures db.GetJob(job.name, job.namespace) == Some(SoftDeleted(job, now))
    ensures SoftDeleted(job, now) in db.ListJobs(None, Some(DELETED), None)
  {
  }
}
