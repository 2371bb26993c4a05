/** The kopf handlers of the second operator generation: create, update,
    delete and the periodic reconcile of an MLJob, built on the services.
    Each handler body runs to an outcome (success, or the exception it
    raised, as a Call) and its except clauses turn that outcome into the
    status it returns or the kopf error it re-raises. */
module OperatorHandlers {
  import opened Wrappers
  import opened Kopf
  import opened OperatorUtils
  import opened Services
  import Text

  const CREATED := "Created"
  const RUNNING := "Running"

  const INVALID_SPEC := "Invalid MLJob specification"
  const QUOTA_EXCEEDED := "Project quota exceeded"
  const UNEXPECTED := "Unexpected error: "
  const CREATED_TEXT := "Created training job successfully"
  const UPDATED_TEXT := "Updated training job successfully"
  const DELETED_TEXT := "Deleted training job successfully"

  /** The status of a handler that gave up with `message`. */
  function FailedStatus(message: string, generation: Option<int>): MLJobStatus {
    CreateMLJobStatus(FAILED, message, generation, false, false, None)
  }

  /** The except clauses of create and update: a kopf TemporaryError is
      re-raised, a PermanentError becomes a Failed status with its text,
      any other exception a Failed status with "Unexpected error: ". */
  function Settle(outcome: Call<()>, success: MLJobStatus, generation: Option<int>): (r: Handled<MLJobStatus>)
    ensures outcome.Ok? ==> r == Done(success)
    ensures r.TemporaryError? <==> outcome.Raised? && outcome.kind.Temporary?
    ensures outcome.Raised? && outcome.kind == Permanent ==> r == Done(FailedStatus(outcome.message, generation))
  {
    match outcome
    case Ok(_) => Done(success)
    case Raised(Temporary(delay), message) => TemporaryError(message, delay)
    case Raised(Permanent, message) => Done(FailedStatus(message, generation))
    case _ => Done(FailedStatus(UNEXPECTED + outcome.Message(), generation))
  }

  /** The validation and quota gates shared by create and update; Ok(())
      lets the handler go on. A quota check that raised propagates. */
  function Gates(spec: JobSpec, project: Call<Value>, jobCount: Call<nat>): (r: Call<()>)
    ensures r.Ok? <==> ValidateMLJobSpec(spec) && CheckProjectQuota(spec, project, jobCount) == Ok(true)
    ensures !ValidateMLJobSpec(spec) ==> r == Raised(Permanent, INVALID_SPEC)
    ensures ValidateMLJobSpec(spec) && CheckProjectQuota(spec, project, jobCount) == Ok(false) ==>
              r == Raised(Permanent, QUOTA_EXCEEDED)
    ensures !(r.Raised? && r.kind.Temporary?)
  {
    if !ValidateMLJobSpec(spec) then Raised(Permanent, INVALID_SPEC)
    else
      match CheckProjectQuota(spec, project, jobCount)
      case Ok(admitted) => if admitted then Ok(()) else Raised(Permanent, QUOTA_EXCEEDED)
      case ApiError(status) => ApiError(status)
      case Raised(kind, message) => assert false; Raised(kind, message)
  }

  // ---------------------------------------------------------------- create_mljob

  /** The body of create_mljob: the gates, then the training job, whose
      create answers `created`. */
  function CreateSteps(spec: JobSpec, project: Call<Value>, jobCount: Call<nat>, created: Call<()>): Call<()> {
    match Gates(spec, project, jobCount)
    case Ok(_) => CreateTrainingJobResource(created)
    case ApiError(status) => ApiError(status)
    case Raised(kind, message) => Raised(kind, message)
  }

  function CreatedStatus(generation: Option<int>): MLJobStatus {
    CreateMLJobStatus(CREATED, CREATED_TEXT, generation, true, false, None)
  }

  /** create_mljob. `project` and `jobCount` answer the quota check,
      `answer` the create of the training job. An invalid spec and a quota
      denial return a Failed status instead of raising; the only error
      that escapes is the TemporaryError of a conflicting create. */
  function CreateMLJob(spec: JobSpec, generation: Option<int>, project: Call<Value>, jobCount: Call<nat>,
                       answer: Call<()>): (r: Handled<MLJobStatus>)
    ensures !ValidateMLJobSpec(spec) ==> r == Done(FailedStatus(INVALID_SPEC, generation))
    ensures ValidateMLJobSpec(spec) && CheckProjectQuota(spec, project, jobCount) == Ok(false) ==>
              r == Done(FailedStatus(QUOTA_EXCEEDED, generation))
    ensures r == Done(CreatedStatus(generation)) <==>
              ValidateMLJobSpec(spec) && CheckProjectQuota(spec, project, jobCount) == Ok(true) &&
              CreateTrainingJob(TrainingOf(spec), answer).Ok?
    ensures r.TemporaryError? <==>
              Gates(spec, project, jobCount).Ok? && answer.IsConflict() &&
              CreateTrainingJob(TrainingOf(spec), answer) == answer
    ensures r.TemporaryError? ==> r == TemporaryError(CONFLICT_RETRY_TEXT, CONFLICT_RETRY_DELAY)
    ensures r.Done? ==> r.status.observedGeneration == generation.GetOr(DEFAULT_GENERATION)
  {
    Settle(CreateSteps(spec, project, jobCount, CreateTrainingJob(TrainingOf(spec), answer)), CreatedStatus(generation), generation)
  }

  /** create_mljob as written: the create of the training job raises the
      TypeError of the missing labels, so a spec that passes the gates is
      reported Failed with that text, never Created. */
  function CreateMLJobAsWritten(spec: JobSpec, generation: Option<int>, project: Call<Value>, jobCount: Call<nat>): (r: Handled<MLJobStatus>)
    ensures Gates(spec, project, jobCount).Ok? ==>
              r == Done(FailedStatus(CREATE_FAILED + MISSING_LABELS, generation))
    ensures r != Done(CreatedStatus(generation))
  {
    CreateAndUpdateAsWritten<()>(Ok(()));
    Settle(CreateSteps(spec, project, jobCount, CreatedAsWritten()), CreatedStatus(generation), generation)
  }

  // ---------------------------------------------------------------- update_mljob

  /** The body of update_mljob: the gates on the new spec, then, only when
      the training changed, delete the old training job and create the new. */
  function UpdateSteps(oldSpec: JobSpec, newSpec: JobSpec, project: Call<Value>, jobCount: Call<nat>,
                       deleteAnswer: Call<()>, created: Call<()>): Call<()> {
    match Gates(newSpec, project, jobCount)
    case Ok(_) =>
      if ShouldUpdateTrainingJob(TrainingOf(oldSpec), TrainingOf(newSpec)) then
        UpdateTrainingJobResource(DeleteTrainingJob(TrainingOf(oldSpec), deleteAnswer), created)
      else Ok(())
    case ApiError(status) => ApiError(status)
    case Raised(kind, message) => Raised(kind, message)
  }

  function UpdatedStatus(generation: Option<int>): MLJobStatus {
    CreateMLJobStatus(CREATED, UPDATED_TEXT, generation, true, false, None)
  }

  /** update_mljob: validates and checks the quota of the new spec, and
      touches the training job only when should_update_training_job holds;
      success reports phase Created. */
  function UpdateMLJob(oldSpec: JobSpec, newSpec: JobSpec, generation: Option<int>, project: Call<Value>,
                       jobCount: Call<nat>, deleteAnswer: Call<()>, createAnswer: Call<()>): (r: Handled<MLJobStatus>)
    ensures !ValidateMLJobSpec(newSpec) ==> r == Done(FailedStatus(INVALID_SPEC, generation))
    ensures r == Done(UpdatedStatus(generation)) <==>
              Gates(newSpec, project, jobCount).Ok? &&
              (ShouldUpdateTrainingJob(TrainingOf(oldSpec), TrainingOf(newSpec)) ==>
                 DeleteTrainingJob(TrainingOf(oldSpec), deleteAnswer).Ok? &&
                 CreateTrainingJob(TrainingOf(newSpec), createAnswer).Ok?)
    ensures r.TemporaryError? ==> r == TemporaryError(CONFLICT_RETRY_TEXT, CONFLICT_RETRY_DELAY)
  {
    UpdateDeletesBeforeCreating(DeleteTrainingJob(TrainingOf(oldSpec), deleteAnswer),
                                CreateTrainingJob(TrainingOf(newSpec), createAnswer), createAnswer);
    Settle(UpdateSteps(oldSpec, newSpec, project, jobCount, deleteAnswer, CreateTrainingJob(TrainingOf(newSpec), createAnswer)),
           UpdatedStatus(generation), generation)
  }

  /** update_mljob as written: when the training changed and the old
      training job was deleted, the create raises the TypeError of the
      missing labels and the MLJob is reported Failed with no training job
      left; it is reported Updated only when the training did not change. */
  function UpdateMLJobAsWritten(oldSpec: JobSpec, newSpec: JobSpec, generation: Option<int>, project: Call<Value>,
                                jobCount: Call<nat>, deleteAnswer: Call<()>): (r: Handled<MLJobStatus>)
    ensures Gates(newSpec, project, jobCount).Ok? && ShouldUpdateTrainingJob(TrainingOf(oldSpec), TrainingOf(newSpec)) &&
            DeleteTrainingJob(TrainingOf(oldSpec), deleteAnswer).Ok? ==>
              r == Done(FailedStatus(UPDATE_FAILED + MISSING_LABELS, generation))
    ensures r == Done(UpdatedStatus(generation)) <==>
              Gates(newSpec, project, jobCount).Ok? && !ShouldUpdateTrainingJob(TrainingOf(oldSpec), TrainingOf(newSpec))
  {
    CreateAndUpdateAsWritten<()>(DeleteTrainingJob(TrainingOf(oldSpec), deleteAnswer));
    Settle(UpdateSteps(oldSpec, newSpec, project, jobCount, deleteAnswer, CreatedAsWritten()), UpdatedStatus(generation), generation)
  }

  /** When the training did not change, the cluster is not asked: the
      answers to the delete and the create make no difference. */
  lemma UpdateLeavesUnchangedTraining(oldSpec: JobSpec, newSpec: JobSpec, generation: Option<int>, project: Call<Value>,
                                      jobCount: Call<nat>, d1: Call<()>, c1: Call<()>, d2: Call<()>, c2: Call<()>)
    requires !ShouldUpdateTrainingJob(TrainingOf(oldSpec), TrainingOf(newSpec))
    ensures UpdateMLJob(oldSpec, newSpec, generation, project, jobCount, d1, c1) ==
            UpdateMLJob(oldSpec, newSpec, generation, project, jobCount, d2, c2)
  {
  }

  // ---------------------------------------------------------------- delete_mljob

  function DeletedStatus(): MLJobStatus {
    CreateMLJobStatus(DELETED, DELETED_TEXT, None, false, true, None)
  }

  /** delete_mljob: the training job's delete, with a 404 counting as
      deleted. It never raises: a PermanentError becomes a Failed status,
      any other exception an "Unexpected error" status, both without a
      generation (so observed_generation 1). */
  function DeleteMLJob(spec: JobSpec, answer: Call<()>): (r: Handled<MLJobStatus>)
    ensures r.Done?
    ensures r.status.observedGeneration == DEFAULT_GENERATION
    ensures r == Done(DeletedStatus()) <==> DeleteTrainingJob(TrainingOf(spec), answer).Ok?
    ensures answer.Ok? || answer.IsNotFound() ==> r == Done(DeletedStatus()) || TrainingOf(spec).TrainingOther?
    ensures r != Done(DeletedStatus()) ==>
              r == Done(FailedStatus(DELETE_FAILED + DeleteTrainingJob(TrainingOf(spec), answer).Message(), None))
  {
    match DeleteTrainingJobResource(DeleteTrainingJob(TrainingOf(spec), answer))
    case Ok(_) => Done(DeletedStatus())
    case Raised(Permanent, message) => Done(FailedStatus(message, None))
    case outcome => assert false; Done(FailedStatus(UNEXPECTED, None))
  }

  // ---------------------------------------------------------------- reconcile_mljob

  /** The phases after which the training job is finished. */
  predicate Finished(phase: string) {
    phase == SUCCEEDED || phase == FAILED
  }

  /** reconcile_mljob over the outcome of services.get_training_job_status:
      no update (Done(None)) for an empty status; otherwise the phase (Running
      when the status has none), the message "Training job is <phase in
      lower case>", the training status, and a completion time for
      Succeeded and Failed. A TemporaryError is re-raised; any other error
      is swallowed and leaves the status as it is. */
  function ReconcileMLJob(generation: Option<int>, fetched: Call<Option<JobState>>): (r: Handled<Option<MLJobStatus>>)
    ensures r.TemporaryError? <==> fetched.Raised? && fetched.kind.Temporary?
    ensures r.Done? && r.status.Some? ==>
              fetched.Ok? && fetched.value.Some? && fetched.value.value != map[] &&
              var s := r.status.value;
              s.phase == (if "phase" in fetched.value.value then fetched.value.value["phase"] else RUNNING) &&
              s.message == "Training job is " + Text.Lower(s.phase) &&
              (s.completionTime <==> Finished(s.phase)) && !s.startTime &&
              s.trainingStatus == fetched.value &&
              s.observedGeneration == generation.GetOr(DEFAULT_GENERATION)
    ensures fetched.Ok? && fetched.value.Some? && fetched.value.value != map[] ==> r.Done? && r.status.Some?
  {
    match fetched
    case Ok(state) =>
      if state.None? || state.value == map[] then Done(None)
      else
        var phase := if "phase" in state.value then state.value["phase"] else RUNNING;
        Done(Some(CreateMLJobStatus(phase, "Training job is " + Text.Lower(phase), generation,
                                    false, Finished(phase), state)))
    case Raised(Temporary(delay), message) => TemporaryError(message, delay)
    case _ => Done(None)
  }

  /** With the services as written, reconcile never reports a status: it
      re-raises a TemporaryError after 30 seconds, every time. */
  lemma ReconcileAsWrittenNeverUpdates(generation: Option<int>, depth: nat)
    ensures ReconcileMLJob(generation, GetTrainingJobStatusAsWritten(depth)).TemporaryError?
    ensures ReconcileMLJob(generation, GetTrainingJobStatusAsWritten(depth)).delay == STATUS_RETRY_DELAY
  {
    AsWrittenAlwaysRetries(depth);
  }

  /** With the intended services, a training job the cluster no longer
      knows ends the MLJob as Failed with a completion time, and a running
      job's phase is copied. */
  lemma ReconcileWithIntendedServices(generation: Option<int>, t: TrainingValue, s: JobState)
    requires t.TrainingDict? && TrainingTruthy(t) && GroupAndVersion(t)
    ensures var r := ReconcileMLJob(generation, Services.GetTrainingJobStatus(OperatorUtils.GetTrainingJobStatus(t, ApiError(NOT_FOUND))));
            r.Done? && r.status.Some? && r.status.value.phase == FAILED && r.status.value.completionTime
    ensures "phase" in s ==>
              var r := ReconcileMLJob(generation, Services.GetTrainingJobStatus(OperatorUtils.GetTrainingJobStatus(t, Ok(Some(s)))));
              r.Done? && r.status.Some? && r.status.value.phase == s["phase"]
  {
    assert NotFoundState != map[] by { assert "phase" in NotFoundState; }
  }
}
