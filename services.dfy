/** The MLJob services of the second operator generation: spec validation,
    the wrappers that turn the training-job helpers' failures into kopf
    errors, the spec-change test and the status builder. A kopf error is a
    Raised call of kind Permanent or Temporary(delay). */
module Services {
  import opened Wrappers
  import opened TrainingSpec
  import opened OperatorUtils

  // ---------------------------------------------------------------- validate_mljob_spec

  /** validate_mljob_spec: job_id, project, owner and training are present,
      training is a dict with api_version, kind and spec, and the resource
      requests of spec are valid (spec must be a dict of replica specs). */
  function ValidateMLJobSpec(spec: JobSpec): (ok: bool)
    ensures ok ==> spec.jobId.Some? && spec.project.Some? && spec.owner.Some? && spec.training.Some?
    ensures ok <==> spec.jobId.Some? && spec.project.Some? && spec.owner.Some? &&
                    spec.training.Some? && spec.training.value.TrainingDict? &&
                    spec.training.value.apiVersion.Some? && spec.training.value.kind.Some? &&
                    spec.training.value.spec.Some? && spec.training.value.spec.value.ReplicaSpecs? &&
                    (var entries := spec.training.value.spec.value.entries;
                     forall i, j :: 0 <= i < |entries| && entries[i].ReplicaSpec? &&
                                    0 <= j < |entries[i].containers| ==>
                                    ContainerRequestsValid(entries[i].containers[j]))
  {
    if spec.jobId.None? || spec.project.None? || spec.owner.None? || spec.training.None? then false
    else
      match spec.training.value
      case TrainingDict(apiVersion, kind, trainingSpec) =>
        if apiVersion.None? || kind.None? || trainingSpec.None? then false
        else (match trainingSpec.value
              case ReplicaSpecs(entries, _) => ValidateResourceRequests(entries)
              case SpecNotADict(_) => false)
      case _ => false
  }

  // ---------------------------------------------------------------- kopf error wrappers

  const CONFLICT_RETRY_TEXT := "Resource conflict, retrying..."
  const CONFLICT_RETRY_DELAY := 10
  const CREATE_FAILED := "Failed to create training job: "
  const UPDATE_FAILED := "Failed to update training job: "
  const DELETE_FAILED := "Failed to delete training job: "
  const STATUS_FAILED := "Failed to get training job status: "
  const STATUS_RETRY_DELAY := 30

  /** The except clauses shared by create and update: a 409 ApiException is
      a TemporaryError after 10 seconds, every other failure a
      PermanentError with `prefix` and the failure's text. */
  function ConflictIsTemporary<T>(c: Call<T>, prefix: string): (r: Call<T>)
    ensures r.Ok? <==> c.Ok?
    ensures c.Ok? ==> r == c
    ensures c.IsConflict() ==> r == Raised(Temporary(CONFLICT_RETRY_DELAY), CONFLICT_RETRY_TEXT)
    ensures !c.Ok? && !c.IsConflict() ==> r == Raised(Permanent, prefix + c.Message())
  {
    match c
    case Ok(v) => Ok(v)
    case ApiError(status) =>
      if status == CONFLICT then Raised(Temporary(CONFLICT_RETRY_DELAY), CONFLICT_RETRY_TEXT)
      else Raised(Permanent, prefix + API_EXCEPTION_TEXT)
    case Raised(_, message) => Raised(Permanent, prefix + message)
  }

  /** create_training_job_resource over the outcome of create_training_job. */
  function CreateTrainingJobResource<T>(created: Call<T>): (r: Call<T>)
    ensures !r.Ok? ==> r.Raised? && (r.kind == Permanent || r.kind == Temporary(CONFLICT_RETRY_DELAY))
  {
    ConflictIsTemporary(created, CREATE_FAILED)
  }

  /** update_training_job_resource: delete the old training job, then
      create the new one; a failed delete stops before the create. */
  function UpdateTrainingJobResource<T>(deleted: Call<()>, created: Call<T>): (r: Call<T>)
    ensures !r.Ok? ==> r.Raised? && (r.kind == Permanent || r.kind == Temporary(CONFLICT_RETRY_DELAY))
  {
    match deleted
    case Ok(_) => ConflictIsTemporary(created, UPDATE_FAILED)
    case ApiError(status) => ConflictIsTemporary(ApiError(status), UPDATE_FAILED)
    case Raised(kind, message) => ConflictIsTemporary(Raised(kind, message), UPDATE_FAILED)
  }

  /** The update succeeds only when both the delete and the create do, and
      a failed delete decides the outcome whatever the create would answer. */
  lemma UpdateDeletesBeforeCreating<T>(deleted: Call<()>, created: Call<T>, other: Call<T>)
    ensures UpdateTrainingJobResource(deleted, created).Ok? <==> deleted.Ok? && created.Ok?
    ensures !deleted.Ok? ==> UpdateTrainingJobResource(deleted, created) == UpdateTrainingJobResource(deleted, other)
    ensures deleted.Ok? ==> UpdateTrainingJobResource(deleted, created) == ConflictIsTemporary(created, UPDATE_FAILED)
  {
  }

  /** The TypeError of calling create_training_job without its labels. */
  const MISSING_LABELS := "create_training_job() missing 1 required positional argument: 'labels'"

  /** The outcome of create_training_job as the services call it: with
      three of its four arguments, so the call raises before the helper
      runs. */
  function CreatedAsWritten<T>(): Call<T> {
    Raised(Other, MISSING_LABELS)
  }

  /** As written, every create ends in a PermanentError, and an update that
      deleted the old training job fails the same way, leaving none. */
  lemma CreateAndUpdateAsWritten<T>(deleted: Call<()>)
    ensures CreateTrainingJobResource<T>(CreatedAsWritten()) == Raised(Permanent, CREATE_FAILED + MISSING_LABELS)
    ensures deleted.Ok? ==>
              UpdateTrainingJobResource<T>(deleted, CreatedAsWritten()) == Raised(Permanent, UPDATE_FAILED + MISSING_LABELS)
    ensures !UpdateTrainingJobResource<T>(deleted, CreatedAsWritten()).Ok?
  {
  }

  /** delete_training_job_resource: a 404 counts as deleted; every other
      failure is a PermanentError. */
  function DeleteTrainingJobResource(deleted: Call<()>): (r: Call<()>)
    ensures r.Ok? <==> deleted.Ok? || deleted.IsNotFound()
    ensures !r.Ok? ==> r == Raised(Permanent, DELETE_FAILED + deleted.Message())
  {
    match deleted
    case Ok(_) => Ok(())
    case ApiError(status) =>
      if status == NOT_FOUND then Ok(()) else Raised(Permanent, DELETE_FAILED + API_EXCEPTION_TEXT)
    case Raised(_, message) => Raised(Permanent, DELETE_FAILED + message)
  }

  // ---------------------------------------------------------------- get_training_job_status

  /** The status reported for a training job the cluster does not know. */
  const NotFoundState: JobState := map["phase" := FAILED, "message" := "Training job not found", "reason" := "NotFound"]

  /** get_training_job_status as intended: the outcome of the utilities'
      get_training_job_status with a 404 turned into the not-found status
      and every other failure into a TemporaryError after 30 seconds. */
  function GetTrainingJobStatus(fetched: Call<Option<JobState>>): (r: Call<Option<JobState>>)
    ensures fetched.Ok? ==> r == fetched
    ensures fetched.IsNotFound() ==> r == Ok(Some(NotFoundState))
    ensures !fetched.Ok? && !fetched.IsNotFound() ==> r == Raised(Temporary(STATUS_RETRY_DELAY), STATUS_FAILED + fetched.Message())
  {
    match fetched
    case Ok(s) => Ok(s)
    case ApiError(status) =>
      if status == NOT_FOUND then Ok(Some(NotFoundState))
      else Raised(Temporary(STATUS_RETRY_DELAY), STATUS_FAILED + API_EXCEPTION_TEXT)
    case Raised(_, message) => Raised(Temporary(STATUS_RETRY_DELAY), STATUS_FAILED + message)
  }

  /** The text of the RecursionError the innermost call raises. */
  const RECURSION_TEXT := "maximum recursion depth exceeded"

  /** get_training_job_status as written: its body calls itself, not the
      utilities' function of the same name, which it shadows. `depth` is the
      number of frames left before the interpreter's recursion limit; each
      frame wraps the inner frame's outcome with the same except clauses. */
  function GetTrainingJobStatusAsWritten(depth: nat): Call<Option<JobState>> {
    if depth == 0 then Raised(Temporary(STATUS_RETRY_DELAY), STATUS_FAILED + RECURSION_TEXT)
    else GetTrainingJobStatus(GetTrainingJobStatusAsWritten(depth - 1))
  }

  /** As written, the status is never read: whatever the cluster holds,
      every call ends in a TemporaryError after 30 seconds. */
  lemma {:induction false} AsWrittenAlwaysRetries(depth: nat)
    ensures GetTrainingJobStatusAsWritten(depth).Raised?
    ensures GetTrainingJobStatusAsWritten(depth).kind == Temporary(STATUS_RETRY_DELAY)
  {
    if depth > 0 {
      AsWrittenAlwaysRetries(depth - 1);
    }
  }

  /** The intended wrapper reports the status the cluster holds. */
  lemma StatusIsReported(s: JobState, depth: nat)
    ensures GetTrainingJobStatus(Ok(Some(s))) == Ok(Some(s))
    ensures GetTrainingJobStatusAsWritten(depth) != Ok(Some(s))
  {
    AsWrittenAlwaysRetries(depth);
  }

  // ---------------------------------------------------------------- should_update_training_job

  /** should_update_training_job over the trainings of the old and the new
      spec: true when api_version, kind or spec differ, and true when either
      training is not a dict (the .get raises). */
  function ShouldUpdateTrainingJob(oldTraining: TrainingValue, newTraining: TrainingValue): (r: bool)
    ensures !oldTraining.TrainingDict? || !newTraining.TrainingDict? ==> r
    ensures oldTraining.TrainingDict? && newTraining.TrainingDict? ==> (r <==> oldTraining != newTraining)
  {
    match (oldTraining, newTraining)
    case (TrainingDict(v1, k1, s1), TrainingDict(v2, k2, s2)) => v1 != v2 || k1 != k2 || s1 != s2
    case _ => true
  }

  /** Any change to spec counts, not only to its resource requests: two
      trainings that differ only in an image, a command or a replica name
      need an update. */
  lemma ShouldUpdateSeesWholeSpec(v: Option<string>, k: Option<string>, entries: seq<ReplicaEntry>, d1: string, d2: string)
    ensures var t1, t2 := TrainingDict(v, k, Some(ReplicaSpecs(entries, d1))), TrainingDict(v, k, Some(ReplicaSpecs(entries, d2)));
            ShouldUpdateTrainingJob(t1, t2) <==> d1 != d2
  {
  }

  // ---------------------------------------------------------------- create_mljob_status

  /** The status an MLJob handler returns. The timestamps are flags: the
      clock value is not modelled. There is no reason field: the builder
      drops the reason its callers pass. */
  datatype MLJobStatus = MLJobStatus(
    phase: string,
    message: string,
    observedGeneration: int,
    startTime: bool,
    completionTime: bool,
    trainingStatus: Option<JobState>)

  const DEFAULT_GENERATION := 1

  /** create_mljob_status: phase, message and observed_generation (1 when
      no generation is passed) always, start_time and completion_time when
      flagged, training_status when passed. */
  function CreateMLJobStatus(phase: string, message: string, generation: Option<int>,
                             startTime: bool, completionTime: bool, trainingStatus: Option<JobState>): (s: MLJobStatus)
    ensures s.phase == phase && s.message == message
    ensures generation.None? ==> s.observedGeneration == DEFAULT_GENERATION
    ensures s.startTime == startTime && s.completionTime == completionTime
    ensures s.trainingStatus == trainingStatus
  {
    MLJobStatus(phase, message, generation.GetOr(DEFAULT_GENERATION), startTime, completionTime, trainingStatus)
  }
}
