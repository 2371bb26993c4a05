/** The training-job handlers of the operator package: the retried helpers
    that read, create and delete the training-operator job, and the kopf
    create, delete, update and status-field handlers built on them. The
    nested get inside create and delete is itself retried, so each attempt
    of the outer helper carries the answers to its own inner gets. */
module KfHandlers {
  import opened Wrappers
  import opened Kopf
  import opened Text
  import Quantity
  import Retry

  /** spec.training as the handlers see it: missing, falsy, a value that is
      not a dict, or a non-empty dict with its apiVersion and kind (None
      when the key is absent). */
  datatype TrainingValue = Missing | Falsy | NotADict | Dict(apiVersion: Option<string>, kind: Option<string>)

  /** The fields of an MLJob spec the handlers read. */
  datatype JobSpec = JobSpec(
    training: TrainingValue,
    jobId: Option<string>,
    project: Option<string>,
    owner: Option<string>,
    description: Option<string>,
    priority: Option<int>,
    tags: seq<string>)

  /** The metadata create_training_job stamps on the manifest. */
  datatype Metadata = Metadata(
    name: string,
    namespace: string,
    jobIdLabel: string,
    projectLabel: string,
    ownerLabel: string,
    description: string,
    priority: string,
    tags: string)

  /** Stands for the TypeError of subscripting a value that is not a dict;
      its text depends on the value's type and is not modelled. */
  const NOT_A_DICT_TEXT := "TypeError"

  const DEFAULT_PRIORITY := 50
  const CONFLICT_DELAY := 10

  /** group, version = apiVersion.split('/') needs exactly one '/'. */
  predicate SplitsInTwo(apiVersion: string) {
    multiset(apiVersion)['/'] == 1
  }

  /** str() of the exceptions a malformed manifest raises before any call:
      the KeyError of a missing key, the ValueError of an apiVersion that
      does not split in two. */
  function ManifestError(t: TrainingValue): (e: Call<bool>)
    requires t.Dict?
    ensures e.Raised? && e.kind == Other
  {
    if t.apiVersion.None? then Raised(Other, "'apiVersion'")
    else if t.kind.None? then Raised(Other, "'kind'")
    else if multiset(t.apiVersion.value)['/'] == 0 then Raised(Other, "not enough values to unpack (expected 2, got 1)")
    else Raised(Other, "too many values to unpack (expected 2)")
  }

  /** The labels and annotations: absent fields read as '', the priority
      as 50, and the tags are joined with ','. */
  function MetadataFor(name: string, namespace: string, spec: JobSpec): (m: Metadata)
    ensures spec.priority.None? ==> m.priority == "50"
    ensures m.jobIdLabel == spec.jobId.GetOr("") && m.projectLabel == spec.project.GetOr("") &&
            m.ownerLabel == spec.owner.GetOr("")
  {
    Quantity.ShowNatDigits(DEFAULT_PRIORITY);
    assert Quantity.ShowInt(50) == "50" by {
      assert Quantity.ShowNat(50) == Quantity.ShowNat(5) + ['0'];
    }
    Metadata(name, namespace, spec.jobId.GetOr(""), spec.project.GetOr(""), spec.owner.GetOr(""),
             spec.description.GetOr(""), Quantity.ShowInt(spec.priority.GetOr(DEFAULT_PRIORITY)),
             Join(',', spec.tags))
  }

  /** The tags annotation gives the tags back when split on ',', provided
      there is at least one tag and none contains a ','. */
  lemma TagsRoundTrip(name: string, namespace: string, spec: JobSpec)
    requires |spec.tags| >= 1
    requires forall i :: 0 <= i < |spec.tags| ==> ',' !in spec.tags[i]
    ensures Split(',', MetadataFor(name, namespace, spec).tags) == spec.tags
  {
    SplitJoin(',', spec.tags);
  }

  // ---------------------------------------------------------------- get_training_job

  /** One attempt of get_training_job: a 404 means there is no job (None);
      `lookup` is Ok(()) when the job exists. */
  function GetTrainingJobOnce(t: TrainingValue, lookup: Call<()>): (r: Call<bool>)
    ensures lookup.IsNotFound() && t.Dict? && t.apiVersion.Some? && t.kind.Some? && SplitsInTwo(t.apiVersion.value)
            ==> r == Ok(false)
  {
    if !t.Dict? then Raised(Other, NOT_A_DICT_TEXT)
    else if t.apiVersion.None? || t.kind.None? || !SplitsInTwo(t.apiVersion.value) then ManifestError(t)
    else
      match lookup
      case Ok(_) => Ok(true)
      case ApiError(status) => if status == NOT_FOUND then Ok(false) else ApiError(status)
      case Raised(kind, message) => Raised(kind, message)
  }

  /** get_training_job under the 'get' configuration (3 attempts, delay 1):
      Ok(true) when the job exists, Ok(false) when it does not. `b` is how
      the decorator's call binds: create_training_job and
      delete_training_job pass their logger by position (LoggerTwice). */
  function GetTrainingJob(t: TrainingValue, lookups: seq<Call<()>>, b: Retry.Binding): (r: Retry.Run<bool>)
    requires |lookups| >= 3
    ensures r.calls <= 3 && r.sleeps == Retry.LinearDelays(1, |r.sleeps|)
    ensures b != Retry.Binds ==> r.outcome == Raised(Other, Retry.BindingError("get_training_job", b))
  {
    var cfg := Retry.HandlersRetryConfig("get");
    var attempts := seq(|lookups|, k requires 0 <= k < |lookups| => GetTrainingJobOnce(t, lookups[k]));
    Retry.WrapperBounds("get_training_job", b, attempts, cfg.maxRetries, cfg.delay);
    Retry.RetrySpec(Retry.Bound("get_training_job", b, attempts), cfg.maxRetries, cfg.delay)
  }

  // ---------------------------------------------------------------- create_training_job

  /** The answers one attempt of create_training_job receives: its inner
      gets, then the create call. */
  datatype CreateAttempt = CreateAttempt(lookups: seq<Call<()>>, create: Call<()>)

  predicate CreateAttemptsOk(attempts: seq<CreateAttempt>) {
    |attempts| >= 3 && forall k :: 0 <= k < |attempts| ==> |attempts[k].lookups| >= 3
  }

  function AlreadyExists(name: string): string {
    "Training job " + name + " already exists"
  }

  /** One attempt of create_training_job. The InvalidSpecError and
      ResourceConflictError it raises are not ApiExceptions, so the
      decorator retries them. On success the model returns the metadata
      the manifest was sent with. */
  function CreateTrainingJobOnce(name: string, namespace: string, t: TrainingValue, spec: JobSpec, attempt: CreateAttempt, b: Retry.Binding): (r: Call<Metadata>)
    requires |attempt.lookups| >= 3
    ensures !t.Dict? ==> r == Raised(InvalidSpec, "Training spec must be a dictionary")
    ensures t.Dict? && (t.apiVersion.None? || t.kind.None?) ==>
              r == Raised(InvalidSpec, "Training spec must contain apiVersion and kind")
    ensures r.Ok? ==> r.value == MetadataFor(name, namespace, spec) &&
                      GetTrainingJob(t, attempt.lookups, b).outcome == Ok(false) && attempt.create.Ok?
  {
    if !t.Dict? then Raised(InvalidSpec, "Training spec must be a dictionary")
    else if t.apiVersion.None? || t.kind.None? then Raised(InvalidSpec, "Training spec must contain apiVersion and kind")
    else if !SplitsInTwo(t.apiVersion.value) then Raised(Other, ManifestError(t).message)
    else
      var existing := GetTrainingJob(t, attempt.lookups, b).outcome;
      match existing
      case Ok(found) =>
        if found then Raised(ResourceConflict, AlreadyExists(name))
        else
          (match attempt.create
           case Ok(_) => Ok(MetadataFor(name, namespace, spec))
           case ApiError(status) =>
             if status == CONFLICT then Raised(ResourceConflict, AlreadyExists(name)) else ApiError(status)
           case Raised(kind, message) => Raised(kind, message))
      case ApiError(status) =>
        if status == CONFLICT then Raised(ResourceConflict, AlreadyExists(name)) else ApiError(status)
      case Raised(kind, message) => Raised(kind, message)
  }

  /** create_training_job under the 'create' configuration (3 attempts,
      delay 2); `b` binds both this call and the inner get. */
  function CreateTrainingJob(name: string, namespace: string, t: TrainingValue, spec: JobSpec, attempts: seq<CreateAttempt>, b: Retry.Binding): (r: Retry.Run<Metadata>)
    requires CreateAttemptsOk(attempts)
    ensures r.calls <= 3 && r.sleeps == Retry.LinearDelays(2, |r.sleeps|)
    ensures b != Retry.Binds ==> r.outcome == Raised(Other, Retry.BindingError("create_training_job", b))
  {
    var cfg := Retry.HandlersRetryConfig("create");
    var once := seq(|attempts|, k requires 0 <= k < |attempts| => CreateTrainingJobOnce(name, namespace, t, spec, attempts[k], b));
    Retry.WrapperBounds("create_training_job", b, once, cfg.maxRetries, cfg.delay);
    Retry.RetrySpec(Retry.Bound("create_training_job", b, once), cfg.maxRetries, cfg.delay)
  }

  /** Once the calls bind, a spec without apiVersion or kind is retried like
      any other error and
      finally surfaces as InvalidSpecError after three calls and sleeps of
      2, 4 and 6 seconds. */
  lemma CreateInvalidSpecRetried(name: string, namespace: string, t: TrainingValue, spec: JobSpec, attempts: seq<CreateAttempt>)
    requires CreateAttemptsOk(attempts)
    requires t.Dict? && (t.apiVersion.None? || t.kind.None?)
    ensures CreateTrainingJob(name, namespace, t, spec, attempts, Retry.Binds) ==
            Retry.Run(Raised(InvalidSpec, "Training spec must contain apiVersion and kind"), 3, [2, 4, 6])
  {
    var once := seq(|attempts|, k requires 0 <= k < |attempts| => CreateTrainingJobOnce(name, namespace, t, spec, attempts[k], Retry.Binds));
    Retry.AllAttemptsRetried(once, 3, 2);
    assert Retry.LinearDelays(2, 3) == [2, 4, 6];
  }

  /** Once the calls bind, a successful create sent the manifest with the
      stamped metadata, after a get that found no job. */
  lemma CreateStampsMetadata(name: string, namespace: string, t: TrainingValue, spec: JobSpec, attempts: seq<CreateAttempt>)
    requires CreateAttemptsOk(attempts)
    requires CreateTrainingJob(name, namespace, t, spec, attempts, Retry.Binds).outcome.Ok?
    ensures CreateTrainingJob(name, namespace, t, spec, attempts, Retry.Binds).outcome.value == MetadataFor(name, namespace, spec)
    ensures exists k :: 0 <= k < 3 && GetTrainingJob(t, attempts[k].lookups, Retry.Binds).outcome == Ok(false) && attempts[k].create.Ok?
  {
    var once := seq(|attempts|, k requires 0 <= k < |attempts| => CreateTrainingJobOnce(name, namespace, t, spec, attempts[k], Retry.Binds));
    Retry.ReturnedIsLastCall(once, 3, 2);
    var k := Retry.RetrySpec(once, 3, 2).calls - 1;
    assert once[k] == CreateTrainingJobOnce(name, namespace, t, spec, attempts[k], Retry.Binds);
  }

  // ---------------------------------------------------------------- delete_training_job

  datatype DeleteAttempt = DeleteAttempt(lookups: seq<Call<()>>, delete: Call<()>)

  predicate DeleteAttemptsOk(attempts: seq<DeleteAttempt>) {
    |attempts| >= 5 && forall k :: 0 <= k < |attempts| ==> |attempts[k].lookups| >= 3
  }

  /** One attempt of delete_training_job: nothing to do when the job is
      absent; a 404 from the delete itself is ignored too. */
  function DeleteTrainingJobOnce(t: TrainingValue, attempt: DeleteAttempt, b: Retry.Binding): (r: Call<()>)
    requires |attempt.lookups| >= 3
    ensures t.Dict? && t.apiVersion.Some? && t.kind.Some? && SplitsInTwo(t.apiVersion.value) &&
            GetTrainingJob(t, attempt.lookups, b).outcome.Ok? &&
            (!GetTrainingJob(t, attempt.lookups, b).outcome.value || attempt.delete.Ok? || attempt.delete.IsNotFound())
            ==> r == Ok(())
  {
    if !t.Dict? then Raised(Other, NOT_A_DICT_TEXT)
    else if t.apiVersion.None? || t.kind.None? || !SplitsInTwo(t.apiVersion.value) then Raised(Other, ManifestError(t).message)
    else
      var existing := GetTrainingJob(t, attempt.lookups, b).outcome;
      match existing
      case Ok(found) =>
        if !found then Ok(())
        else
          (match attempt.delete
           case Ok(_) => Ok(())
           case ApiError(status) => if status == NOT_FOUND then Ok(()) else ApiError(status)
           case Raised(kind, message) => Raised(kind, message))
      case ApiError(status) => if status == NOT_FOUND then Ok(()) else ApiError(status)
      case Raised(kind, message) => Raised(kind, message)
  }

  /** delete_training_job under the 'delete' configuration (5 attempts,
      delay 1); `b` binds both this call and the inner get. */
  function DeleteTrainingJob(t: TrainingValue, attempts: seq<DeleteAttempt>, b: Retry.Binding): (r: Retry.Run<()>)
    requires DeleteAttemptsOk(attempts)
    ensures r.calls <= 5 && r.sleeps == Retry.LinearDelays(1, |r.sleeps|)
    ensures b != Retry.Binds ==> r.outcome == Raised(Other, Retry.BindingError("delete_training_job", b))
  {
    var cfg := Retry.HandlersRetryConfig("delete");
    var once := seq(|attempts|, k requires 0 <= k < |attempts| => DeleteTrainingJobOnce(t, attempts[k], b));
    Retry.WrapperBounds("delete_training_job", b, once, cfg.maxRetries, cfg.delay);
    Retry.RetrySpec(Retry.Bound("delete_training_job", b, once), cfg.maxRetries, cfg.delay)
  }

  /** Once the calls bind, deleting a job that is not there succeeds at the
      first call: the delete is idempotent. */
  lemma DeleteAbsentJobSucceeds(t: TrainingValue, attempts: seq<DeleteAttempt>)
    requires DeleteAttemptsOk(attempts)
    requires t.Dict? && t.apiVersion.Some? && t.kind.Some? && SplitsInTwo(t.apiVersion.value)
    requires attempts[0].lookups[0] == ApiError(NOT_FOUND)
    ensures DeleteTrainingJob(t, attempts, Retry.Binds) == Retry.Run(Ok(()), 1, [])
  {
    var inner := seq(|attempts[0].lookups|, k requires 0 <= k < |attempts[0].lookups| => GetTrainingJobOnce(t, attempts[0].lookups[k]));
    Retry.FirstDecisiveAttempt(inner, 3, 1, 0);
    var once := seq(|attempts|, k requires 0 <= k < |attempts| => DeleteTrainingJobOnce(t, attempts[k], Retry.Binds));
    assert once[0] == Ok(());
    Retry.FirstDecisiveAttempt(once, 5, 1, 0);
  }

  // ---------------------------------------------------------------- kopf handlers

  /** The status patch of the training-job handlers. */
  datatype Status = Status(phase: string, completionTime: bool, conditions: seq<Condition>)

  const CreatedStatus := Status("Created", false, [Condition("Created", "True", "JobCreated", "Job was created successfully")])
  const DeletedStatus := Status("Deleted", true, [Condition("Deleted", "True", "JobDeleted", "Job was deleted successfully")])
  const UpdatedStatus := Status("Running", false, [Condition("Updated", "True", "JobUpdated", "Job was updated successfully")])

  predicate Truthy(t: TrainingValue) {
    t.NotADict? || t.Dict?
  }

  /** How create_ml_job and update_ml_job report a failure: InvalidSpecError
      is permanent, ResourceConflictError temporary (retried by kopf after
      10 s), anything else permanent. */
  function FailureOf<T, S>(c: Call<T>): (h: Handled<S>)
    requires !c.Ok?
    ensures !h.Done?
    ensures h.TemporaryError? <==> c.Raised? && c.kind == ResourceConflict
  {
    if c.Raised? && c.kind == InvalidSpec then PermanentError(c.message)
    else if c.Raised? && c.kind == ResourceConflict then TemporaryError(c.message, CONFLICT_DELAY)
    else PermanentError(c.Message())
  }

  /** create_ml_job. `spec` is None when the spec is empty; `b` is how the
      retried calls bind, LoggerTwice as written (the handler passes its
      logger by position). */
  function CreateMLJob(name: string, namespace: string, spec: Option<JobSpec>, attempts: seq<CreateAttempt>, b: Retry.Binding): (r: Handled<Status>)
    requires CreateAttemptsOk(attempts)
    ensures spec.None? ==> r == PermanentError("Spec must be provided")
    ensures spec.Some? && !Truthy(spec.value.training) ==> r == PermanentError("Training spec must be provided")
    ensures r.Done? ==> r.status == CreatedStatus && |r.status.conditions| == 1
    ensures r.TemporaryError? ==> r.delay == CONFLICT_DELAY
    ensures spec.Some? && Truthy(spec.value.training) ==>
      var run := CreateTrainingJob(name, namespace, spec.value.training, spec.value, attempts, b);
      (r.Done? <==> run.outcome.Ok?) &&
      (r.TemporaryError? <==> run.outcome.Raised? && run.outcome.kind == ResourceConflict)
  {
    if spec.None? then PermanentError("Spec must be provided")
    else if !Truthy(spec.value.training) then PermanentError("Training spec must be provided")
    else
      var run := CreateTrainingJob(name, namespace, spec.value.training, spec.value, attempts, b);
      if run.outcome.Ok? then Done(CreatedStatus) else FailureOf(run.outcome)
  }

  /** As written, every create_ml_job event with a training spec fails for
      good: create_training_job is handed the logger twice, and its
      TypeError is retried three times (sleeping 2, 4 and 6 seconds) and
      then reported. No training job is ever created. */
  lemma CreateMLJobAsWritten(name: string, namespace: string, spec: Option<JobSpec>, attempts: seq<CreateAttempt>)
    requires CreateAttemptsOk(attempts)
    ensures spec.Some? && Truthy(spec.value.training) ==>
            CreateTrainingJob(name, namespace, spec.value.training, spec.value, attempts, Retry.LoggerTwice) ==
            Retry.Run(Raised(Other, Retry.BindingError("create_training_job", Retry.LoggerTwice)), 3, [2, 4, 6])
    ensures !CreateMLJob(name, namespace, spec, attempts, Retry.LoggerTwice).Done?
    ensures spec.Some? && Truthy(spec.value.training) ==>
            CreateMLJob(name, namespace, spec, attempts, Retry.LoggerTwice) ==
            PermanentError(Retry.BindingError("create_training_job", Retry.LoggerTwice))
  {
    if spec.Some? && Truthy(spec.value.training) {
      var once := seq(|attempts|, k requires 0 <= k < |attempts| =>
                        CreateTrainingJobOnce(name, namespace, spec.value.training, spec.value, attempts[k], Retry.LoggerTwice));
      Retry.UnboundCallExhausts("create_training_job", Retry.LoggerTwice, once, 3, 2);
      assert Retry.LinearDelays(2, 3) == [2, 4, 6];
    }
  }

  /** Once the calls bind, a job whose inner get finds it on every attempt
      ends as a conflict, which kopf retries after 10 seconds. */
  lemma CreateExistingJobIsTemporary(name: string, namespace: string, spec: JobSpec, attempts: seq<CreateAttempt>)
    requires CreateAttemptsOk(attempts)
    requires spec.training.Dict? && spec.training.apiVersion.Some? && spec.training.kind.Some? &&
             SplitsInTwo(spec.training.apiVersion.value)
    requires forall k :: 0 <= k < 3 ==> attempts[k].lookups[0] == Ok(())
    ensures CreateMLJob(name, namespace, Some(spec), attempts, Retry.Binds) == TemporaryError(AlreadyExists(name), CONFLICT_DELAY)
  {
    var t := spec.training;
    forall k | 0 <= k < 3
      ensures CreateTrainingJobOnce(name, namespace, t, spec, attempts[k], Retry.Binds) == Raised(ResourceConflict, AlreadyExists(name))
    {
      var inner := seq(|attempts[k].lookups|, j requires 0 <= j < |attempts[k].lookups| => GetTrainingJobOnce(t, attempts[k].lookups[j]));
      Retry.FirstDecisiveAttempt(inner, 3, 1, 0);
    }
    var once := seq(|attempts|, k requires 0 <= k < |attempts| => CreateTrainingJobOnce(name, namespace, t, spec, attempts[k], Retry.Binds));
    Retry.AllAttemptsRetried(once, 3, 2);
  }

  /** delete_ml_job: None (no patch) when the training job is reported
      missing, Deleted otherwise; any other error is permanent. */
  function DeleteMLJob(training: TrainingValue, attempts: seq<DeleteAttempt>, b: Retry.Binding): (r: Handled<Option<Status>>)
    requires DeleteAttemptsOk(attempts)
    ensures !r.TemporaryError?
    ensures !Truthy(training) ==> r == Done(Some(DeletedStatus))
    ensures r.Done? && r.status.Some? ==> r.status.value == DeletedStatus
    ensures Truthy(training) ==>
      var run := DeleteTrainingJob(training, attempts, b);
      (r == Done(Some(DeletedStatus)) <==> run.outcome.Ok?) &&
      (r == Done(None) <==> run.outcome.Raised? && run.outcome.kind == ResourceNotFound) &&
      (r.PermanentError? ==> r.message == run.outcome.Message())
  {
    if !Truthy(training) then Done(Some(DeletedStatus))
    else
      var run := DeleteTrainingJob(training, attempts, b);
      match run.outcome
      case Ok(_) => Done(Some(DeletedStatus))
      case ApiError(_) => PermanentError(run.outcome.Message())
      case Raised(kind, message) =>
        if kind == ResourceNotFound then Done(None) else PermanentError(message)
  }

  /** As written, deleting an MLJob with a training spec always fails for
      good after five attempts of delete_training_job, each a TypeError
      for the logger passed twice; the training job is left in place. */
  lemma DeleteMLJobAsWritten(training: TrainingValue, attempts: seq<DeleteAttempt>)
    requires DeleteAttemptsOk(attempts)
    ensures Truthy(training) ==>
            DeleteTrainingJob(training, attempts, Retry.LoggerTwice) ==
            Retry.Run(Raised(Other, Retry.BindingError("delete_training_job", Retry.LoggerTwice)), 5, [1, 2, 3, 4, 5])
    ensures DeleteMLJob(training, attempts, Retry.LoggerTwice) ==
            if Truthy(training) then PermanentError(Retry.BindingError("delete_training_job", Retry.LoggerTwice))
            else Done(Some(DeletedStatus))
  {
    if Truthy(training) {
      var once := seq(|attempts|, k requires 0 <= k < |attempts| => DeleteTrainingJobOnce(training, attempts[k], Retry.LoggerTwice));
      assert DeleteTrainingJob(training, attempts, Retry.LoggerTwice) ==
             Retry.RetrySpec(Retry.Bound("delete_training_job", Retry.LoggerTwice, once), 5, 1);
      Retry.UnboundCallExhausts("delete_training_job", Retry.LoggerTwice, once, 5, 1);
      assert Retry.LinearDelays(1, 5) == [1, 2, 3, 4, 5];
    }
  }

  /** update_ml_job: delete the old training job (when the old spec has
      one), then create the new one; phase Running on success. */
  function UpdateMLJob(name: string, namespace: string, spec: Option<JobSpec>, oldTraining: TrainingValue,
                       deletes: seq<DeleteAttempt>, creates: seq<CreateAttempt>, b: Retry.Binding): (r: Handled<Status>)
    requires DeleteAttemptsOk(deletes) && CreateAttemptsOk(creates)
    ensures spec.None? ==> r == PermanentError("Spec must be provided")
    ensures spec.Some? && !Truthy(spec.value.training) ==> r == PermanentError("Training spec must be provided")
    ensures r.Done? ==> r.status == UpdatedStatus
    ensures r.TemporaryError? ==> r.delay == CONFLICT_DELAY
    ensures r.Done? <==> spec.Some? && Truthy(spec.value.training) &&
                         (Truthy(oldTraining) ==> DeleteTrainingJob(oldTraining, deletes, b).outcome.Ok?) &&
                         CreateTrainingJob(name, namespace, spec.value.training, spec.value, creates, b).outcome.Ok?
    ensures spec.Some? && Truthy(spec.value.training) && Truthy(oldTraining) ==>
      var deleted := DeleteTrainingJob(oldTraining, deletes, b).outcome;
      !deleted.Ok? ==> r == FailureOf(deleted)
    ensures spec.Some? && Truthy(spec.value.training) &&
            (Truthy(oldTraining) ==> DeleteTrainingJob(oldTraining, deletes, b).outcome.Ok?) ==>
      var created := CreateTrainingJob(name, namespace, spec.value.training, spec.value, creates, b).outcome;
      !created.Ok? ==> r == FailureOf(created)
  {
    if spec.None? then PermanentError("Spec must be provided")
    else if !Truthy(spec.value.training) then PermanentError("Training spec must be provided")
    else
      var deleted := if Truthy(oldTraining) then DeleteTrainingJob(oldTraining, deletes, b).outcome else Ok(());
      if !deleted.Ok? then FailureOf(deleted)
      else
        var created := CreateTrainingJob(name, namespace, spec.value.training, spec.value, creates, b).outcome;
        if !created.Ok? then FailureOf(created) else Done(UpdatedStatus)
  }

  /** As written, an update with a training spec always fails for good:
      with the TypeError of delete_training_job when the old spec had a
      training, else with that of create_training_job. */
  lemma UpdateMLJobAsWritten(name: string, namespace: string, spec: JobSpec, oldTraining: TrainingValue,
                             deletes: seq<DeleteAttempt>, creates: seq<CreateAttempt>)
    requires DeleteAttemptsOk(deletes) && CreateAttemptsOk(creates)
    requires Truthy(spec.training)
    ensures UpdateMLJob(name, namespace, Some(spec), oldTraining, deletes, creates, Retry.LoggerTwice) ==
            PermanentError(if Truthy(oldTraining) then Retry.BindingError("delete_training_job", Retry.LoggerTwice)
                           else Retry.BindingError("create_training_job", Retry.LoggerTwice))
  {
    DeleteMLJobAsWritten(oldTraining, deletes);
    CreateMLJobAsWritten(name, namespace, Some(spec), creates);
  }

  /** The old job is deleted before the new one is created: when the delete
      fails, the create answers play no part. */
  lemma UpdateDeletesFirst(name: string, namespace: string, spec: Option<JobSpec>, oldTraining: TrainingValue,
                           deletes: seq<DeleteAttempt>, creates1: seq<CreateAttempt>, creates2: seq<CreateAttempt>, b: Retry.Binding)
    requires DeleteAttemptsOk(deletes) && CreateAttemptsOk(creates1) && CreateAttemptsOk(creates2)
    requires Truthy(oldTraining) && !DeleteTrainingJob(oldTraining, deletes, b).outcome.Ok?
    ensures UpdateMLJob(name, namespace, spec, oldTraining, deletes, creates1, b) ==
            UpdateMLJob(name, namespace, spec, oldTraining, deletes, creates2, b)
  {
  }

  // ---------------------------------------------------------------- monitor_job_status

  /** The status patch monitor_job_status returns for a phase (duration is
      a clock reading and is left out). */
  function MonitorJobStatus(phase: Option<string>): (s: Status)
    ensures s.completionTime <==> Lower(phase.GetOr("")) in {"succeeded", "failed"}
    ensures s.phase == Capitalize(phase.GetOr(""))
    ensures |s.conditions| == 1 && s.conditions[0].kind == s.phase
  {
    var p := Lower(phase.GetOr(""));
    CapitalizeIgnoresCase(phase.GetOr(""));
    Status(Capitalize(p), p in {"succeeded", "failed"},
           [Condition(Capitalize(p), "True", "Job" + Capitalize(p), "Job is " + p)])
  }
}
