/** The utilities of the second operator generation: the training-job
    helpers the services call, the project quota gate, the clean-up test
    for finished or orphaned jobs, and the spec-change tests of projects
    and owners. Every Kubernetes answer is a parameter of type Call. */
module OperatorUtils {
  import opened Wrappers
  import opened TrainingSpec
  import Quantity
  import Text

  // ---------------------------------------------------------------- dynamic values

  /** A value read out of a manifest, with Python's dynamic types. A float
      is carried as the decimal its repr prints, so two floats are equal
      exactly when their decimals are. */
  datatype Value =
    | VNone
    | VBool(b: bool)
    | VInt(i: int)
    | VFloat(d: Quantity.Decimal)
    | VStr(s: string)
    | VList(items: seq<Value>)
    | VDict(fields: map<string, Value>)

  const EmptyDict := VDict(map[])

  /** Python truthiness. */
  predicate Truthy(v: Value) {
    match v
    case VNone => false
    case VBool(b) => b
    case VInt(i) => i != 0
    case VFloat(d) => d.digits != 0
    case VStr(s) => s != []
    case VList(items) => items != []
    case VDict(fields) => fields != map[]
  }

  /** d.get(key, default). */
  function Lookup(d: map<string, Value>, key: string, default: Value): (v: Value)
    ensures key !in d ==> v == default
  {
    if key in d then d[key] else default
  }

  /** isinstance(v, int); a bool is an int in Python. */
  predicate IsInt(v: Value) {
    v.VInt? || v.VBool?
  }

  /** `count >= v` for an int count; None where Python raises TypeError. */
  function AtLeast(count: int, v: Value): (r: Option<bool>)
    ensures v.VInt? ==> r == Some(count >= v.i)
    ensures !IsInt(v) && !v.VFloat? ==> r.None?
  {
    match v
    case VInt(i) => Some(count >= i)
    case VBool(b) => Some(count >= if b then 1 else 0)
    case VFloat(d) =>
      var scaled := count * Quantity.Pow10(d.scale);
      Some(if d.negative then scaled >= -(d.digits as int) else scaled >= d.digits)
    case _ => None
  }

  // ---------------------------------------------------------------- the MLJob spec

  /** spec.training.spec: the dict of replica specs, or anything else.
      `entries` are the replica specs in key order, as far as resource
      requests go; `detail` stands for everything else the dict holds (the
      replica names, images, commands, any other key), so two dicts are
      equal exactly when both parts are. `raw` stands for a value that is
      not a dict. */
  datatype SpecValue = ReplicaSpecs(entries: seq<ReplicaEntry>, detail: string) | SpecNotADict(raw: string)

  /** spec.training: a dict (keys absent or set to None read as None), a
      falsy value that is not a dict, or a truthy value that is not a dict. */
  datatype TrainingValue =
    | TrainingDict(apiVersion: Option<string>, kind: Option<string>, spec: Option<SpecValue>)
    | TrainingFalsy
    | TrainingOther

  const EmptyTraining := TrainingDict(None, None, None)

  /** The keys of an MLJob spec the operator reads; None when absent. */
  datatype JobSpec = JobSpec(jobId: Option<Value>, project: Option<Value>, owner: Option<Value>,
                             training: Option<TrainingValue>)

  /** spec.get("training", {}). */
  function TrainingOf(spec: JobSpec): TrainingValue {
    spec.training.GetOr(EmptyTraining)
  }

  predicate TrainingTruthy(t: TrainingValue) {
    t.TrainingOther? || (t.TrainingDict? && (t.apiVersion.Some? || t.kind.Some? || t.spec.Some?))
  }

  /** training.get("api_version", "").split("/") has two parts. */
  predicate GroupAndVersion(t: TrainingValue)
    requires t.TrainingDict?
  {
    |Text.Split('/', t.apiVersion.GetOr(""))| == 2
  }

  /** Stands for the AttributeError of calling .get on a value that is not a
      dict; its text depends on the value's type and is not modelled. */
  const NOT_A_DICT_TEXT := "AttributeError"
  const TRAINING_REQUIRED := "Training spec is required"
  const BAD_API_VERSION := "Invalid api_version format"

  /** The api_version test holds exactly when there is a single '/'. */
  lemma GroupAndVersionMeaning(t: TrainingValue)
    requires t.TrainingDict?
    ensures GroupAndVersion(t) <==> multiset(t.apiVersion.GetOr(""))['/'] == 1
  {
    Text.SplitCount('/', t.apiVersion.GetOr(""));
  }

  // ---------------------------------------------------------------- training-job helpers

  /** create_training_job: a falsy training and an apiVersion without
      exactly one '/' raise ValueError before any call; otherwise the
      cluster's answer to the create comes back as it is. */
  function CreateTrainingJob(t: TrainingValue, answer: Call<()>): (r: Call<()>)
    ensures !TrainingTruthy(t) ==> r == Raised(Other, TRAINING_REQUIRED)
    ensures r.Ok? <==> t.TrainingDict? && TrainingTruthy(t) && GroupAndVersion(t) && answer.Ok?
    ensures r.ApiError? ==> r == answer
  {
    if !TrainingTruthy(t) then Raised(Other, TRAINING_REQUIRED)
    else if t.TrainingOther? then Raised(Other, NOT_A_DICT_TEXT)
    else if !GroupAndVersion(t) then Raised(Other, BAD_API_VERSION)
    else answer
  }

  /** delete_training_job: nothing to do for a falsy training or a malformed
      apiVersion; a 404 from the cluster is swallowed, every other failure
      is re-raised. */
  function DeleteTrainingJob(t: TrainingValue, answer: Call<()>): (r: Call<()>)
    ensures !TrainingTruthy(t) ==> r == Ok(())
    ensures t.TrainingDict? && !GroupAndVersion(t) ==> r == Ok(())
    ensures answer.Ok? || answer.IsNotFound() ==> r.Ok? || t.TrainingOther?
    ensures r.ApiError? ==> r == answer && !r.IsNotFound()
  {
    if !TrainingTruthy(t) then Ok(())
    else if t.TrainingOther? then Raised(Other, NOT_A_DICT_TEXT)
    else if !GroupAndVersion(t) then Ok(())
    else if answer.IsNotFound() then Ok(())
    else answer
  }

  /** The status of a training job: the fields of its `status` dict. */
  type JobState = map<string, string>

  /** get_training_job_status: None for a falsy training or a malformed
      apiVersion, the job's status ({} when it has none) otherwise; every
      failure, a 404 included, is re-raised. */
  function GetTrainingJobStatus(t: TrainingValue, answer: Call<Option<JobState>>): (r: Call<Option<JobState>>)
    ensures !TrainingTruthy(t) ==> r == Ok(None)
    ensures t.TrainingDict? && TrainingTruthy(t) && GroupAndVersion(t) ==>
              r == (match answer case Ok(s) => Ok(Some(s.GetOr(map[]))) case _ => answer)
  {
    if !TrainingTruthy(t) then Ok(None)
    else if t.TrainingOther? then Raised(Other, NOT_A_DICT_TEXT)
    else if !GroupAndVersion(t) then Ok(None)
    else
      match answer
      case Ok(s) => Ok(Some(s.GetOr(map[])))
      case ApiError(status) => ApiError(status)
      case Raised(kind, message) => Raised(kind, message)
  }

  // ---------------------------------------------------------------- validate_project_quotas

  /** validate_project_quotas: quotas must be a dict with an int gpu_limit,
      an int or float cpu_limit, a str memory_limit and an int max_jobs. */
  function ValidateProjectQuotas(spec: map<string, Value>): (ok: bool)
    ensures ok <==> (var q := Lookup(spec, "quotas", EmptyDict);
                     q.VDict? &&
                     "gpu_limit" in q.fields && IsInt(q.fields["gpu_limit"]) &&
                     "cpu_limit" in q.fields && (IsInt(q.fields["cpu_limit"]) || q.fields["cpu_limit"].VFloat?) &&
                     "memory_limit" in q.fields && q.fields["memory_limit"].VStr? &&
                     "max_jobs" in q.fields && IsInt(q.fields["max_jobs"]))
  {
    match Lookup(spec, "quotas", EmptyDict)
    case VDict(q) =>
      var cpu := Lookup(q, "cpu_limit", VNone);
      IsInt(Lookup(q, "gpu_limit", VNone)) && (IsInt(cpu) || cpu.VFloat?) &&
      Lookup(q, "memory_limit", VNone).VStr? && IsInt(Lookup(q, "max_jobs", VNone))
    case _ => false
  }

  /** A spec without quotas, or with quotas that are not a dict, is invalid;
      a bool passes where an int is asked for. */
  lemma ValidateProjectQuotasCases(spec: map<string, Value>)
    ensures "quotas" !in spec ==> !ValidateProjectQuotas(spec)
    ensures "quotas" in spec && !spec["quotas"].VDict? ==> !ValidateProjectQuotas(spec)
    ensures ValidateProjectQuotas(map["quotas" := VDict(map["gpu_limit" := VBool(true), "cpu_limit" := VInt(4),
                                                            "memory_limit" := VStr("8Gi"), "max_jobs" := VInt(2)])])
  {
  }

  // ---------------------------------------------------------------- change tests

  /** should_update_jobs: the quotas differ, an absent quotas reading as {}. */
  function ShouldUpdateJobs(oldSpec: map<string, Value>, newSpec: map<string, Value>): bool {
    Lookup(oldSpec, "quotas", EmptyDict) != Lookup(newSpec, "quotas", EmptyDict)
  }

  /** The test is symmetric, false on an unchanged spec, true when quotas
      are added or changed, and blind to the difference between an absent
      and an empty quotas. */
  lemma ShouldUpdateJobsMeaning(oldSpec: map<string, Value>, newSpec: map<string, Value>)
    ensures ShouldUpdateJobs(oldSpec, newSpec) == ShouldUpdateJobs(newSpec, oldSpec)
    ensures !ShouldUpdateJobs(oldSpec, oldSpec)
    ensures "quotas" !in oldSpec && "quotas" in newSpec ==>
              (ShouldUpdateJobs(oldSpec, newSpec) <==> newSpec["quotas"] != EmptyDict)
    ensures "quotas" in oldSpec && "quotas" in newSpec ==>
              (ShouldUpdateJobs(oldSpec, newSpec) <==> oldSpec["quotas"] != newSpec["quotas"])
  {
  }

  /** should_update_owner_resources: role or permissions differ, an absent
      key reading as None. */
  function ShouldUpdateOwnerResources(oldSpec: map<string, Value>, newSpec: map<string, Value>): bool {
    Lookup(oldSpec, "role", VNone) != Lookup(newSpec, "role", VNone) ||
    Lookup(oldSpec, "permissions", VNone) != Lookup(newSpec, "permissions", VNone)
  }

  /** Other keys never matter; changing the role always does. */
  lemma ShouldUpdateOwnerResourcesMeaning(oldSpec: map<string, Value>, newSpec: map<string, Value>, key: string, v: Value)
    ensures !ShouldUpdateOwnerResources(oldSpec, oldSpec)
    ensures key != "role" && key != "permissions" ==>
              ShouldUpdateOwnerResources(oldSpec[key := v], newSpec) == ShouldUpdateOwnerResources(oldSpec, newSpec)
    ensures v != VNone ==> ShouldUpdateOwnerResources(oldSpec - {"role"}, oldSpec["role" := v])
  {
    assert Lookup(oldSpec["role" := v], "role", VNone) == v;
  }

  // ---------------------------------------------------------------- check_project_quota

  /** check_project_quota. `project` is the project's `spec` (its absence
      reads as {}), `jobCount` the number of MLJobs labelled with the
      project. A 404 and any error that is not an ApiException deny; any
      other ApiException propagates. */
  function CheckProjectQuota(spec: JobSpec, project: Call<Value>, jobCount: Call<nat>): (r: Call<bool>)
    ensures spec.project.None? || !Truthy(spec.project.value) ==> r == Ok(false)
    ensures project.IsNotFound() ==> r == Ok(false)
    ensures r.ApiError? ==> !r.IsNotFound()
    ensures r.ApiError? ==> (project.ApiError? && r.status == project.status) ||
                            (jobCount.ApiError? && r.status == jobCount.status)
  {
    if spec.project.None? || !Truthy(spec.project.value) then Ok(false)
    else
      match project
      case ApiError(status) => if status == NOT_FOUND then Ok(false) else ApiError(status)
      case Raised(_, _) => Ok(false)
      case Ok(projectSpec) =>
        if !projectSpec.VDict? then Ok(false)
        else
          var quotas := Lookup(projectSpec.fields, "quotas", EmptyDict);
          if !Truthy(quotas) then Ok(false)
          else
            match jobCount
            case ApiError(status) => if status == NOT_FOUND then Ok(false) else ApiError(status)
            case Raised(_, _) => Ok(false)
            case Ok(count) =>
              if !quotas.VDict? then Ok(false)
              else
                match AtLeast(count, Lookup(quotas.fields, "max_jobs", VInt(0)))
                case None => Ok(false)
                case Some(full) => Ok(!full)
  }

  /** The quota gate admits exactly when the project is named and found, its
      quotas are a non-empty dict, and the job count is below max_jobs (read
      as 0 when absent): reaching max_jobs already denies, whatever else the
      project's spec and quotas hold. */
  lemma CheckProjectQuotaMeaning(spec: JobSpec, name: string, projectSpec: map<string, Value>,
                                 quotas: map<string, Value>, count: nat, maxJobs: int)
    requires spec.project == Some(VStr(name)) && name != ""
    requires "quotas" in projectSpec && projectSpec["quotas"] == VDict(quotas) && quotas != map[]
    ensures "max_jobs" !in quotas ==> CheckProjectQuota(spec, Ok(VDict(projectSpec)), Ok(count)) == Ok(false)
    ensures "max_jobs" in quotas && quotas["max_jobs"] == VInt(maxJobs) ==>
              (CheckProjectQuota(spec, Ok(VDict(projectSpec)), Ok(count)) == Ok(true) <==> count < maxJobs)
  {
    assert Lookup(projectSpec, "quotas", EmptyDict) == VDict(quotas);
  }

  /** The job listing comes before the quotas are read: a listing that fails
      with an ApiException other than 404 propagates even when the quotas
      are not a dict. */
  lemma CheckProjectQuotaListsFirst(spec: JobSpec, name: string, projectSpec: map<string, Value>, status: int)
    requires spec.project == Some(VStr(name)) && name != ""
    requires "quotas" in projectSpec && projectSpec["quotas"] == VStr("full") && status != NOT_FOUND
    ensures CheckProjectQuota(spec, Ok(VDict(projectSpec)), ApiError(status)) == ApiError(status)
  {
    assert Lookup(projectSpec, "quotas", EmptyDict) == VStr("full");
  }

  /** A project with no quotas, or quotas that are empty, denies every job. */
  lemma CheckProjectQuotaNeedsQuotas(spec: JobSpec, projectSpec: map<string, Value>, jobCount: Call<nat>)
    requires "quotas" !in projectSpec || projectSpec["quotas"] == EmptyDict
    ensures CheckProjectQuota(spec, Ok(VDict(projectSpec)), jobCount) == Ok(false)
  {
  }

  // ---------------------------------------------------------------- should_cleanup_resource

  const MAX_AGE_DAYS := 30
  const SUCCEEDED := "Succeeded"
  const FAILED := "Failed"
  const DELETED := "Deleted"

  predicate TerminalPhase(phase: Option<string>) {
    phase == Some(SUCCEEDED) || phase == Some(FAILED) || phase == Some(DELETED)
  }

  /** An MLJob as the clean-up test reads it. Ages are whole days elapsed
      since the creationTimestamp and the status completion_time (None when
      absent or empty); `namespace` is whether metadata has a namespace. */
  datatype JobView = JobView(
    createdDaysAgo: Option<int>,
    phase: Option<string>,
    completedDaysAgo: Option<int>,
    training: TrainingValue,
    namespace: bool)

  /** The orphan test: the training job's lookup answered 404. */
  predicate Orphaned(job: JobView, lookup: Call<()>) {
    TrainingTruthy(job.training) && job.training.TrainingDict? && GroupAndVersion(job.training) &&
    job.namespace && lookup.IsNotFound()
  }

  /** should_cleanup_resource with max_age `maxAge` and orphan clean-up
      `orphanCleanup`; `lookup` answers the get of the training job. */
  function ShouldCleanupResource(job: JobView, maxAge: int, orphanCleanup: bool, lookup: Call<()>): (r: bool)
    ensures job.createdDaysAgo.None? ==> !r
    ensures r <==> job.createdDaysAgo.Some? &&
                   (job.createdDaysAgo.value > maxAge ||
                    (TerminalPhase(job.phase) && job.completedDaysAgo.Some? && job.completedDaysAgo.value > maxAge) ||
                    (orphanCleanup && Orphaned(job, lookup)))
  {
    if job.createdDaysAgo.None? then false
    else if job.createdDaysAgo.value > maxAge then true
    else if TerminalPhase(job.phase) && job.completedDaysAgo.Some? && job.completedDaysAgo.value > maxAge then true
    else if !orphanCleanup || !TrainingTruthy(job.training) then false
    else if job.training.TrainingOther? then false  // the .get raises and the outer handler answers False
    else if !GroupAndVersion(job.training) then false
    else if !job.namespace then false  // KeyError, outside the ApiException handler
    else lookup.IsNotFound()
  }

  /** A young job whose training job exists, or whose lookup failed other
      than with a 404, is kept. */
  lemma YoungLiveJobIsKept(job: JobView, maxAge: int, orphanCleanup: bool, lookup: Call<()>)
    requires job.createdDaysAgo.Some? && job.createdDaysAgo.value <= maxAge
    requires !TerminalPhase(job.phase) || job.completedDaysAgo.None? || job.completedDaysAgo.value <= maxAge
    requires !lookup.IsNotFound()
    ensures !ShouldCleanupResource(job, maxAge, orphanCleanup, lookup)
  {
  }
}
