/** The MLJob event handlers of the operator package: creation (reference
    checks, admission against the project quota, the training job, the
    usage commit) and deletion (the training job, the usage release), with
    their retried helpers validate_project, validate_owner and
    update_project_usage. Every Kubernetes call is an oracle: the Call it
    answered, one per attempt where the helper is retried. */
module MLJobHandler {
  import opened Wrappers
  import opened Kopf
  import opened TrainingSpec
  import opened Quota
  import Retry

  /** A Project as the handlers read it: status.phase, spec.quota and
      status.usage (every usage key absent when there is no usage). */
  datatype Project = Project(phase: Option<string>, quota: QuotaSpec, usage: Usage)

  /** An Owner; only spec.department is read. */
  datatype Owner = Owner(department: string)

  /** spec.training: absent, present but falsy (an empty dict), or a
      manifest whose `spec` holds the replica specs. */
  datatype Training = NoTraining | EmptyTraining | Manifest(entries: seq<ReplicaEntry>)

  datatype MLJobSpec = MLJobSpec(projectRef: Option<string>, ownerRef: Option<string>, training: Training)

  /** The status patch the handlers return. */
  datatype JobStatus = JobStatus(phase: string, resourceUsage: Option<Usage>, conditions: seq<Condition>)

  /** A string field that is present and not empty (Python truthiness). */
  predicate Given(s: Option<string>) {
    s.Some? && s.value != ""
  }

  const REFS_REQUIRED := "Project and Owner references are required"
  const QUOTA_EXCEEDED := "Resource quota exceeded"
  const TRAINING_REQUIRED := "Training spec must be provided"
  /** str() of the KeyError spec['training'] raises when the key is absent. */
  const TRAINING_KEY_ERROR := "'training'"

  const NoUsage := Usage(None, None, None, None, None)

  // ---------------------------------------------------------------- retried helpers

  /** One attempt of validate_project: the project must exist and be
      Active. The PermanentError it raises is not an ApiException, so the
      decorator retries it like any other error. */
  function ValidateProjectOnce(projectId: string, lookup: Call<Project>): (r: Call<Project>)
    ensures r.Ok? <==> lookup.Ok? && lookup.value.phase == Some("Active")
    ensures r.Ok? ==> r == lookup
  {
    match lookup
    case Ok(p) =>
      if p.phase == Some("Active") then Ok(p)
      else Raised(Permanent, "Project " + projectId + " is not active")
    case ApiError(status) =>
      if status == NOT_FOUND then Raised(Permanent, "Project " + projectId + " does not exist")
      else ApiError(status)
    case Raised(kind, message) => Raised(kind, message)
  }

  /** validate_project under its 'get' retry configuration; lookups[k] is
      the answer to the k-th get and `b` how the decorator's call binds. */
  function ValidateProject(projectId: string, lookups: seq<Call<Project>>, b: Retry.Binding): (r: Retry.Run<Project>)
    requires |lookups| >= Retry.ConfiguredRetry("get").maxRetries
    ensures r.calls <= 3 && r.sleeps == Retry.LinearDelays(1, |r.sleeps|)
    ensures b != Retry.Binds ==> r.outcome == Raised(Other, Retry.BindingError("validate_project", b))
  {
    var cfg := Retry.ConfiguredRetry("get");
    var attempts := seq(|lookups|, k requires 0 <= k < |lookups| => ValidateProjectOnce(projectId, lookups[k]));
    Retry.WrapperBounds("validate_project", b, attempts, cfg.maxRetries, cfg.delay);
    Retry.RetrySpec(Retry.Bound("validate_project", b, attempts), cfg.maxRetries, cfg.delay)
  }

  /** As written, validate_project takes no `logger` parameter while the
      decorator always passes one: every attempt raises the TypeError, the
      lookups are never made, and the TypeError is raised after sleeps of
      1, 2 and 3 seconds. */
  lemma ValidateProjectAsWritten(projectId: string, lookups: seq<Call<Project>>)
    requires |lookups| >= 3
    ensures ValidateProject(projectId, lookups, Retry.NoLoggerParameter) ==
            Retry.Run(Raised(Other, Retry.BindingError("validate_project", Retry.NoLoggerParameter)), 3, [1, 2, 3])
  {
    var attempts := seq(|lookups|, k requires 0 <= k < |lookups| => ValidateProjectOnce(projectId, lookups[k]));
    Retry.UnboundCallExhausts("validate_project", Retry.NoLoggerParameter, attempts, 3, 1);
    assert Retry.LinearDelays(1, 3) == [1, 2, 3];
  }

  /** Once the call binds, an Active project found by the first lookup is
      returned at once, with no sleep. */
  lemma ValidateProjectFindsActive(projectId: string, lookups: seq<Call<Project>>)
    requires |lookups| >= 3
    requires lookups[0].Ok? && lookups[0].value.phase == Some("Active")
    ensures ValidateProject(projectId, lookups, Retry.Binds) == Retry.Run(lookups[0], 1, [])
  {
    var attempts := seq(|lookups|, k requires 0 <= k < |lookups| => ValidateProjectOnce(projectId, lookups[k]));
    Retry.FirstDecisiveAttempt(attempts, 3, 1, 0);
  }

  /** Once the call binds, a project that is absent on every lookup is
      reported missing, but only after three calls and sleeps of 1, 2 and 3 seconds. */
  lemma ValidateProjectMissing(projectId: string, lookups: seq<Call<Project>>)
    requires |lookups| >= 3
    requires forall k :: 0 <= k < 3 ==> lookups[k] == ApiError(NOT_FOUND)
    ensures ValidateProject(projectId, lookups, Retry.Binds) ==
            Retry.Run(Raised(Permanent, "Project " + projectId + " does not exist"), 3, [1, 2, 3])
  {
    var attempts := seq(|lookups|, k requires 0 <= k < |lookups| => ValidateProjectOnce(projectId, lookups[k]));
    Retry.AllAttemptsRetried(attempts, 3, 1);
    assert Retry.LinearDelays(1, 3) == [1, 2, 3];
  }

  /** Once the call binds, a project that stays inactive is refused the
      same way. */
  lemma ValidateProjectInactive(projectId: string, lookups: seq<Call<Project>>)
    requires |lookups| >= 3
    requires forall k :: 0 <= k < 3 ==> lookups[k].Ok? && lookups[k].value.phase != Some("Active")
    ensures ValidateProject(projectId, lookups, Retry.Binds) ==
            Retry.Run(Raised(Permanent, "Project " + projectId + " is not active"), 3, [1, 2, 3])
  {
    var attempts := seq(|lookups|, k requires 0 <= k < |lookups| => ValidateProjectOnce(projectId, lookups[k]));
    Retry.AllAttemptsRetried(attempts, 3, 1);
    assert Retry.LinearDelays(1, 3) == [1, 2, 3];
  }

  /** Once the call binds, whatever validate_project returns is an Active
      project that one of the lookups answered. */
  lemma ValidateProjectReturnsActive(projectId: string, lookups: seq<Call<Project>>)
    requires |lookups| >= 3
    requires ValidateProject(projectId, lookups, Retry.Binds).outcome.Ok?
    ensures ValidateProject(projectId, lookups, Retry.Binds).outcome.value.phase == Some("Active")
    ensures exists k :: 0 <= k < 3 && lookups[k] == ValidateProject(projectId, lookups, Retry.Binds).outcome
  {
    var attempts := seq(|lookups|, k requires 0 <= k < |lookups| => ValidateProjectOnce(projectId, lookups[k]));
    Retry.ReturnedIsLastCall(attempts, 3, 1);
    var k := Retry.RetrySpec(attempts, 3, 1).calls - 1;
    assert attempts[k] == ValidateProjectOnce(projectId, lookups[k]);
  }

  /** One attempt of validate_owner: the owner must exist. */
  function ValidateOwnerOnce(ownerName: string, lookup: Call<Owner>): (r: Call<Owner>)
    ensures r.Ok? <==> lookup.Ok?
  {
    match lookup
    case Ok(o) => Ok(o)
    case ApiError(status) =>
      if status == NOT_FOUND then Raised(Permanent, "Owner " + ownerName + " does not exist")
      else ApiError(status)
    case Raised(kind, message) => Raised(kind, message)
  }

  function ValidateOwner(ownerName: string, lookups: seq<Call<Owner>>, b: Retry.Binding): (r: Retry.Run<Owner>)
    requires |lookups| >= Retry.ConfiguredRetry("get").maxRetries
    ensures r.calls <= 3 && r.sleeps == Retry.LinearDelays(1, |r.sleeps|)
    ensures b != Retry.Binds ==> r.outcome == Raised(Other, Retry.BindingError("validate_owner", b))
  {
    var cfg := Retry.ConfiguredRetry("get");
    var attempts := seq(|lookups|, k requires 0 <= k < |lookups| => ValidateOwnerOnce(ownerName, lookups[k]));
    Retry.WrapperBounds("validate_owner", b, attempts, cfg.maxRetries, cfg.delay);
    Retry.RetrySpec(Retry.Bound("validate_owner", b, attempts), cfg.maxRetries, cfg.delay)
  }

  /** What one attempt of update_project_usage is answered: the project get
      (its status.usage) and, when it is reached, the status patch. */
  datatype UsageCalls = UsageCalls(get: Call<Usage>, patch: Call<()>)

  /** A 404 from either call becomes the PermanentError "Project ... does
      not exist"; other ApiExceptions propagate. */
  function ProjectCallFailed<T>(projectId: string, c: Call<T>): Call<Usage>
    requires !c.Ok?
  {
    match c
    case ApiError(status) =>
      if status == NOT_FOUND then Raised(Permanent, "Project " + projectId + " does not exist")
      else ApiError(status)
    case Raised(kind, message) => Raised(kind, message)
  }

  /** One attempt of update_project_usage: read the usage, add the delta
      and jobs_delta, patch the new usage. The Python function returns
      None; the model returns the usage it wrote. An amount that does not
      parse raises ValueError before the patch. */
  function UpdateProjectUsageOnce(projectId: string, calls: UsageCalls, delta: Usage, jobsDelta: int, codec: Codec): (r: Call<Usage>)
    ensures r.Ok? <==> calls.get.Ok? && NewUsageWith(calls.get.value, delta, jobsDelta, codec).Some? && calls.patch.Ok?
    ensures r.Ok? ==> r.value == NewUsageWith(calls.get.value, delta, jobsDelta, codec).value
  {
    if !calls.get.Ok? then ProjectCallFailed(projectId, calls.get)
    else
      match NewUsageWith(calls.get.value, delta, jobsDelta, codec)
      case None => Raised(Other, UNPARSEABLE)
      case Some(written) =>
        if calls.patch.Ok? then Ok(written) else ProjectCallFailed(projectId, calls.patch)
  }

  /** update_project_usage under its 'patch' retry configuration, which
      falls back to the default of three attempts one second apart. */
  function UpdateProjectUsageWith(projectId: string, attempts: seq<UsageCalls>, delta: Usage, jobsDelta: int, codec: Codec, b: Retry.Binding): (r: Retry.Run<Usage>)
    requires |attempts| >= Retry.ConfiguredRetry("patch").maxRetries
    ensures r.calls <= 3 && r.sleeps == Retry.LinearDelays(1, |r.sleeps|)
    ensures b != Retry.Binds ==> r.outcome == Raised(Other, Retry.BindingError("update_project_usage", b))
  {
    var cfg := Retry.ConfiguredRetry("patch");
    var once := seq(|attempts|, k requires 0 <= k < |attempts| =>
                      UpdateProjectUsageOnce(projectId, attempts[k], delta, jobsDelta, codec));
    Retry.WrapperBounds("update_project_usage", b, once, cfg.maxRetries, cfg.delay);
    Retry.RetrySpec(Retry.Bound("update_project_usage", b, once), cfg.maxRetries, cfg.delay)
  }

  /** `written` reads back as `current` plus `delta` in every amount, with
      jobsDelta added to the job count. */
  ghost predicate WroteSum(current: Usage, delta: Usage, jobsDelta: int, written: Usage, codec: Codec) {
    TotalsWith(current, codec).Some? && TotalsWith(delta, codec).Some? &&
    var c, d := TotalsWith(current, codec).value, TotalsWith(delta, codec).value;
    TotalsWith(written, codec) ==
      Some(Totals(c.gpu + d.gpu, c.cpu + d.cpu, c.memory + d.memory, c.storage + d.storage, c.jobs + jobsDelta))
  }

  /** Whatever update_project_usage writes is the usage one of its gets
      read, plus the delta, with jobs_delta added to the job count, for a
      codec that reads back what it writes. */
  lemma UpdateProjectUsageWrites(projectId: string, attempts: seq<UsageCalls>, delta: Usage, jobsDelta: int, codec: Codec)
    requires |attempts| >= 3
    requires ReadsBack(codec)
    requires UpdateProjectUsageWith(projectId, attempts, delta, jobsDelta, codec, Retry.Binds).outcome.Ok?
    ensures exists k :: (0 <= k < 3 && attempts[k].get.Ok? && attempts[k].patch.Ok? &&
                         WroteSum(attempts[k].get.value, delta, jobsDelta,
                                  UpdateProjectUsageWith(projectId, attempts, delta, jobsDelta, codec, Retry.Binds).outcome.value, codec))
  {
    var once := seq(|attempts|, k requires 0 <= k < |attempts| =>
                      UpdateProjectUsageOnce(projectId, attempts[k], delta, jobsDelta, codec));
    Retry.ReturnedIsLastCall(once, 3, 1);
    var k := Retry.RetrySpec(once, 3, 1).calls - 1;
    assert once[k] == UpdateProjectUsageOnce(projectId, attempts[k], delta, jobsDelta, codec);
    var current := attempts[k].get.value;
    assert NewUsageWith(current, delta, jobsDelta, codec).Some?;
    NewUsageAdds(current, delta, jobsDelta, codec);
  }

  /** A project that is gone on every get is reported missing after three
      attempts, and nothing is written. */
  lemma UpdateProjectUsageMissing(projectId: string, attempts: seq<UsageCalls>, delta: Usage, jobsDelta: int, codec: Codec)
    requires |attempts| >= 3
    requires forall k :: 0 <= k < 3 ==> attempts[k].get == ApiError(NOT_FOUND)
    ensures UpdateProjectUsageWith(projectId, attempts, delta, jobsDelta, codec, Retry.Binds) ==
            Retry.Run(Raised(Permanent, "Project " + projectId + " does not exist"), 3, [1, 2, 3])
  {
    var once := seq(|attempts|, k requires 0 <= k < |attempts| =>
                      UpdateProjectUsageOnce(projectId, attempts[k], delta, jobsDelta, codec));
    Retry.AllAttemptsRetried(once, 3, 1);
    assert Retry.LinearDelays(1, 3) == [1, 2, 3];
  }

  // ---------------------------------------------------------------- create_mljob

  /** The request dict calculate_resource_request returns, written with the
      codec. */
  function RequestUsageWith(a: Amounts, codec: Codec): Usage {
    Usage(Some(a.gpu), Some(codec.showCpu(a.cpu)), Some(codec.showMemory(a.memory)),
          Some(codec.showMemory(a.storage)), None)
  }

  /** What the Kubernetes API answers during one create_mljob event. */
  datatype CreateCalls = CreateCalls(
    projectLookups: seq<Call<Project>>,
    ownerLookups: seq<Call<Owner>>,
    createTraining: Call<()>,
    usageUpdates: seq<UsageCalls>)

  predicate EnoughAttempts(calls: CreateCalls) {
    |calls.projectLookups| >= 3 && |calls.ownerLookups| >= 3 && |calls.usageUpdates| >= 3
  }

  /** The entries calculate_resource_request walks: spec['training'] must
      exist (else KeyError); an empty training dict has no replica specs. */
  function TrainingEntries(t: Training): Option<seq<ReplicaEntry>> {
    match t
    case NoTraining => None
    case EmptyTraining => Some([])
    case Manifest(entries) => Some(entries)
  }

  /** create_mljob: references, project and owner validation, the resource
      request, admission against the merged usage, the training job, the
      usage commit of +1 job. Every exception becomes a PermanentError with
      its text; there is no temporary outcome. `read` reads one container's
      requests and `codec` the usage amounts; the operator's are
      ContainerAmounts and OperatorCodec. */
  function CreateMLJobWith(spec: MLJobSpec, calls: CreateCalls, read: Container -> Option<Amounts>, codec: Codec, b: Retry.Binding): (r: Handled<JobStatus>)
    requires EnoughAttempts(calls)
    ensures !(Given(spec.projectRef) && Given(spec.ownerRef)) ==> r == PermanentError(REFS_REQUIRED)
    ensures !r.TemporaryError?
    ensures r.Done? <==>
      Given(spec.projectRef) && Given(spec.ownerRef) && spec.training.Manifest? &&
      ValidateProject(spec.projectRef.value, calls.projectLookups, b).outcome.Ok? &&
      ValidateOwner(spec.ownerRef.value, calls.ownerLookups, b).outcome.Ok? &&
      RequestTotalWith(spec.training.entries, read).Some? &&
      var project := ValidateProject(spec.projectRef.value, calls.projectLookups, b).outcome.value;
      var request := RequestUsageWith(RequestTotalWith(spec.training.entries, read).value, codec);
      ViolatesQuotaWith(MergeUsage(project.usage, request), project.quota, codec) == Some(false) &&
      calls.createTraining.Ok? &&
      UpdateProjectUsageWith(spec.projectRef.value, calls.usageUpdates, request, 1, codec, b).outcome.Ok?
    ensures r.Done? ==>
      var request := RequestUsageWith(RequestTotalWith(spec.training.entries, read).value, codec);
      r.status == JobStatus("Created", Some(request),
                            [Condition("Created", "True", "JobCreated", "Job was created successfully")])
    ensures (Given(spec.projectRef) && Given(spec.ownerRef) &&
             ValidateProject(spec.projectRef.value, calls.projectLookups, b).outcome.Ok? &&
             ValidateOwner(spec.ownerRef.value, calls.ownerLookups, b).outcome.Ok? &&
             TrainingEntries(spec.training).Some? &&
             RequestTotalWith(TrainingEntries(spec.training).value, read).Some? &&
             var project := ValidateProject(spec.projectRef.value, calls.projectLookups, b).outcome.value;
             var request := RequestUsageWith(RequestTotalWith(TrainingEntries(spec.training).value, read).value, codec);
             ViolatesQuotaWith(MergeUsage(project.usage, request), project.quota, codec) == Some(true)) ==>
      r == PermanentError(QUOTA_EXCEEDED)
  {
    if !(Given(spec.projectRef) && Given(spec.ownerRef)) then PermanentError(REFS_REQUIRED)
    else
      var projectId, ownerName := spec.projectRef.value, spec.ownerRef.value;
      var project := ValidateProject(projectId, calls.projectLookups, b).outcome;
      if !project.Ok? then PermanentError(project.Message())
      else
        var owner := ValidateOwner(ownerName, calls.ownerLookups, b).outcome;
        if !owner.Ok? then PermanentError(owner.Message())
        else AdmitAndCreate(spec, projectId, project.value, calls, read, codec, b)
  }

  /** The rest of create_mljob once the project and the owner are
      validated: the resource request, admission against the merged usage,
      the training job, the usage commit. */
  function AdmitAndCreate(spec: MLJobSpec, projectId: string, project: Project, calls: CreateCalls,
                          read: Container -> Option<Amounts>, codec: Codec, b: Retry.Binding): (r: Handled<JobStatus>)
    requires |calls.usageUpdates| >= 3
    ensures !r.TemporaryError?
    ensures r.Done? <==>
      spec.training.Manifest? && RequestTotalWith(spec.training.entries, read).Some? &&
      var request := RequestUsageWith(RequestTotalWith(spec.training.entries, read).value, codec);
      ViolatesQuotaWith(MergeUsage(project.usage, request), project.quota, codec) == Some(false) &&
      calls.createTraining.Ok? &&
      UpdateProjectUsageWith(projectId, calls.usageUpdates, request, 1, codec, b).outcome.Ok?
    ensures r.Done? ==>
      var request := RequestUsageWith(RequestTotalWith(spec.training.entries, read).value, codec);
      r.status == JobStatus("Created", Some(request),
                            [Condition("Created", "True", "JobCreated", "Job was created successfully")])
    ensures (TrainingEntries(spec.training).Some? &&
             RequestTotalWith(TrainingEntries(spec.training).value, read).Some? &&
             var request := RequestUsageWith(RequestTotalWith(TrainingEntries(spec.training).value, read).value, codec);
             ViolatesQuotaWith(MergeUsage(project.usage, request), project.quota, codec) == Some(true)) ==>
      r == PermanentError(QUOTA_EXCEEDED)
  {
    match TrainingEntries(spec.training)
    case None => PermanentError(TRAINING_KEY_ERROR)
    case Some(entries) =>
      var total := RequestTotalWith(entries, read);
      if total.None? then PermanentError(UNPARSEABLE)
      else
        var request := RequestUsageWith(total.value, codec);
        match ViolatesQuotaWith(MergeUsage(project.usage, request), project.quota, codec)
        case None => PermanentError(UNPARSEABLE)
        case Some(true) => PermanentError(QUOTA_EXCEEDED)
        case Some(false) =>
          if !spec.training.Manifest? then PermanentError(TRAINING_REQUIRED)
          else if !calls.createTraining.Ok? then PermanentError(calls.createTraining.Message())
          else
            var committed := UpdateProjectUsageWith(projectId, calls.usageUpdates, request, 1, codec, b).outcome;
            if !committed.Ok? then PermanentError(committed.Message())
            else Done(JobStatus("Created", Some(request),
                                [Condition("Created", "True", "JobCreated", "Job was created successfully")]))
  }

  /** create_mljob as the operator runs it: the operator's readers, and
      retried helpers that take no `logger` parameter. */
  function CreateMLJob(spec: MLJobSpec, calls: CreateCalls): Handled<JobStatus>
    requires EnoughAttempts(calls)
  {
    CreateMLJobWith(spec, calls, ContainerAmounts, OperatorCodec, Retry.NoLoggerParameter)
  }

  /** As written, every create_mljob event that names a project and an
      owner fails for good with validate_project's TypeError: no project is
      read, no training job is created and no usage is committed. */
  lemma CreateMLJobAsWrittenFails(spec: MLJobSpec, calls: CreateCalls, read: Container -> Option<Amounts>, codec: Codec)
    requires EnoughAttempts(calls)
    ensures CreateMLJobWith(spec, calls, read, codec, Retry.NoLoggerParameter) ==
            PermanentError(if Given(spec.projectRef) && Given(spec.ownerRef)
                           then Retry.BindingError("validate_project", Retry.NoLoggerParameter)
                           else REFS_REQUIRED)
  {
    if Given(spec.projectRef) && Given(spec.ownerRef) {
      ValidateProjectAsWritten(spec.projectRef.value, calls.projectLookups);
      assert ValidateProject(spec.projectRef.value, calls.projectLookups, Retry.NoLoggerParameter).outcome.Message() ==
             Retry.BindingError("validate_project", Retry.NoLoggerParameter);
    }
  }

  /** A training-job create that conflicts (409) is not retried here and
      fails the MLJob for good. */
  lemma CreateConflictIsPermanent(spec: MLJobSpec, calls: CreateCalls, read: Container -> Option<Amounts>, codec: Codec, b: Retry.Binding)
    requires EnoughAttempts(calls)
    requires calls.createTraining == ApiError(CONFLICT)
    ensures CreateMLJobWith(spec, calls, read, codec, b).PermanentError?
  {
  }

  // ---------------------------------------------------------------- delete_mljob

  /** What the Kubernetes API answers during one delete_mljob event. */
  datatype DeleteCalls = DeleteCalls(deleteTraining: Call<()>, usageUpdates: seq<UsageCalls>)

  const DeletedStatus := JobStatus("Deleted", None, [Condition("Deleted", "True", "JobDeleted", "Job was deleted successfully")])

  /** delete_mljob: delete the training job (a 404 is ignored), then call
      update_project_usage with the job's recorded resourceUsage and -1.
      `recorded` is status.resourceUsage, None when absent. Every exception
      becomes a PermanentError. */
  function DeleteMLJobWith(spec: MLJobSpec, recorded: Option<Usage>, calls: DeleteCalls, codec: Codec, b: Retry.Binding): (r: Handled<JobStatus>)
    requires |calls.usageUpdates| >= 3
    ensures !r.TemporaryError?
    ensures r.Done? ==> r.status == DeletedStatus
    ensures r.Done? <==>
      (!spec.training.Manifest? || calls.deleteTraining.Ok? || calls.deleteTraining.IsNotFound()) &&
      (Given(spec.projectRef) ==>
        UpdateProjectUsageWith(spec.projectRef.value, calls.usageUpdates, recorded.GetOr(NoUsage), -1, codec, b).outcome.Ok?)
  {
    if spec.training.Manifest? && !calls.deleteTraining.Ok? && !calls.deleteTraining.IsNotFound() then
      PermanentError(calls.deleteTraining.Message())
    else if Given(spec.projectRef) &&
            !UpdateProjectUsageWith(spec.projectRef.value, calls.usageUpdates, recorded.GetOr(NoUsage), -1, codec, b).outcome.Ok? then
      PermanentError(UpdateProjectUsageWith(spec.projectRef.value, calls.usageUpdates, recorded.GetOr(NoUsage), -1, codec, b).outcome.Message())
    else Done(DeletedStatus)
  }

  /** delete_mljob as the operator runs it. */
  function DeleteMLJob(spec: MLJobSpec, recorded: Option<Usage>, calls: DeleteCalls): Handled<JobStatus>
    requires |calls.usageUpdates| >= 3
  {
    DeleteMLJobWith(spec, recorded, calls, OperatorCodec, Retry.NoLoggerParameter)
  }

  /** As written, deleting an MLJob that names a project always fails for
      good: when the training job is gone, update_project_usage raises its
      TypeError and no usage is written. Only a job without a project
      reference is deleted cleanly. */
  lemma DeleteMLJobAsWritten(spec: MLJobSpec, recorded: Option<Usage>, calls: DeleteCalls, codec: Codec)
    requires |calls.usageUpdates| >= 3
    ensures DeleteMLJobWith(spec, recorded, calls, codec, Retry.NoLoggerParameter).Done? <==>
            !Given(spec.projectRef) &&
            (!spec.training.Manifest? || calls.deleteTraining.Ok? || calls.deleteTraining.IsNotFound())
    ensures Given(spec.projectRef) &&
            (!spec.training.Manifest? || calls.deleteTraining.Ok? || calls.deleteTraining.IsNotFound()) ==>
            DeleteMLJobWith(spec, recorded, calls, codec, Retry.NoLoggerParameter) ==
            PermanentError(Retry.BindingError("update_project_usage", Retry.NoLoggerParameter))
  {
    if Given(spec.projectRef) {
      var once := seq(|calls.usageUpdates|, k requires 0 <= k < |calls.usageUpdates| =>
                        UpdateProjectUsageOnce(spec.projectRef.value, calls.usageUpdates[k], recorded.GetOr(NoUsage), -1, codec));
      Retry.UnboundCallExhausts("update_project_usage", Retry.NoLoggerParameter, once, 3, 1);
    }
  }

  /** A training job that is already gone does not stop the delete. */
  lemma DeleteIgnoresMissingTrainingJob(spec: MLJobSpec, recorded: Option<Usage>, usageUpdates: seq<UsageCalls>, codec: Codec, b: Retry.Binding)
    requires |usageUpdates| >= 3
    ensures DeleteMLJobWith(spec, recorded, DeleteCalls(ApiError(NOT_FOUND), usageUpdates), codec, b) ==
            DeleteMLJobWith(spec, recorded, DeleteCalls(Ok(()), usageUpdates), codec, b)
  {
  }

  /** Once update_project_usage binds, the usage a successful delete
      writes is the project's usage plus the job's recorded resources, with
      one job fewer: the resources are added, not released. */
  lemma DeleteAddsRecordedUsage(spec: MLJobSpec, recorded: Usage, calls: DeleteCalls, codec: Codec)
    requires |calls.usageUpdates| >= 3 && ReadsBack(codec) && Given(spec.projectRef)
    requires DeleteMLJobWith(spec, Some(recorded), calls, codec, Retry.Binds).Done?
    ensures exists k :: (0 <= k < 3 && calls.usageUpdates[k].get.Ok? &&
                         WroteSum(calls.usageUpdates[k].get.value, recorded, -1,
                                  UpdateProjectUsageWith(spec.projectRef.value, calls.usageUpdates, recorded, -1, codec, Retry.Binds).outcome.value, codec))
  {
    UpdateProjectUsageWrites(spec.projectRef.value, calls.usageUpdates, recorded, -1, codec);
  }
}
