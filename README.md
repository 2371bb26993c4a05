# kubeflow-mini operator and backend: a Dafny model

This project models the decision and bookkeeping logic of kubeflow-mini. That is:

- the MLJob and Project operators, of both generations, plus the single-file prototype;
- the backend's status-sync and self-healing sweeps;
- the job record tables and the project statistics;
- the command-line tool's job database.

Every call into the Kubernetes API is an oracle: a parameter of type `Wrappers.Call` holding the value returned, an `ApiException` with its HTTP status, or another exception with its class and text. A retried helper receives one such answer per attempt, and its sleeps are recorded as a list of delays. Clocks are integer `now` parameters and ages are whole numbers.

Modules, one per source file or concern:

- **`Wrappers`**: `Option`, `Call`, and kopf's handler outcome (`Handled`: a status patch, a `PermanentError`, or a `TemporaryError` with a delay).
- **`Text`**: the ASCII `lower`, `capitalize`, `join` and `split` the handlers use.
- **`Quantity`**: the integer readers and writers behind the operators' quantities (CPU in millicores, memory in bytes), the validators of the operator utilities, and the backend's memory-to-bytes converter.
- **`Backoff`**: `exponential_backoff`.
- **`Retry`**: the `retry_on_error` decorator, its configuration tables, how its call binds to the wrapped function, and the attempt loop as a method proved against a recursive specification.
- **`TrainingSpec`**: `validate_resource_requests` and `calculate_resource_request`, whose nested accumulation loops are methods.
- **`Quota`**: project quota validation, `violates_quota`, the project create, update and delete handlers, usage bookkeeping and admission.
- **`MLJobHandler`**: the MLJob create and delete handlers with their retried helpers.
- **`KfHandlers`**: the training-job helpers and the kopf handlers of `kubeflow_mini/operator/handlers.py`.
- **`OperatorUtils`**, **`Services`**, **`OperatorHandlers`**: the second operator generation (`src/operator`).
- **`Prototype`**: the root `operator.py`.
- **`JobStore`**: the backend tables as a `Backend` class, with the CRUD operations and paged queries of `crud.py`.
- **`Sync`**, **`App`**: the status-sync and cleanup sweeps of `sync.py` and the two timers of `app.py`.
  - Each sweep is a method that updates `Backend.jobs` in place.
  - It is proved pointwise against a one-row step function.
  - Lemmas state what repeated sweeps do.
- **`Stats`**: `get_project_stats` in integers.
- **`JobDb`**: the command-line tool's job database, as a `JobDatabase` class with a map keyed by (name, namespace).

`src/operator/project_handler.py` and `src/operator/mljob_handler.py` are exact copies of their `kubeflow_mini` counterparts and are modelled once; the table cites the `kubeflow_mini` copy.

The code is followed wherever the description of the system says otherwise. Three places:

- Admission and release are modelled as the code writes them, with the intended versions proved alongside (see Findings).
- `_should_cleanup_job` is modelled although nothing calls it, and compared with the selection that `cleanup_resources` actually uses (`Sync.ShouldCleanupJobVersusSelection`).
- The status-sync and cleanup timers compare statuses with capitalised names, while the sweeps write lower-case names. `App.FailedRowIsSweptAgain` states the consequence.

Several defects make whole paths of the code unreachable as written:

- the retry decorator's `logger=` keyword, which some wrapped functions do not take and some callers pass twice;
- the backend entity's missing usage and error columns;
- the keywords of `crud.create_mljob`;
- the missing `labels` argument of the second generation's `create_training_job`.

For each, the model has a member that shows the defect as written and the corrected behaviour the rest of the model uses; the `Retry.Binding` parameter selects between them for the retried helpers. Most lemmas state the corrected behaviour, and the Findings table pairs the two.

## Model

| member | source | states |
|---|---|---|
| Backoff.ExponentialBackoff | src/operator/utils.py:352-366 | The delay is never above max_delay; it is initial_delay·base^attempt whenever that fits under the cap, and max_delay otherwise |
| Backoff.BackoffMonotone | src/operator/utils.py:352-366 | A later attempt never waits less than an earlier one |
| Backoff.BackoffStaysCapped | src/operator/utils.py:352-366 | Once an attempt's delay reaches the cap, every later attempt's delay is the cap |
| Backoff.DefaultSchedule | src/operator/utils.py:352-366 | With the defaults 1, 2, 300 the delay is 2^attempt up to attempt 8 (256) and 300 from attempt 9 on |
| Retry.HandlersRetryConfig | src/kubeflow_mini/operator/handlers.py:22-27 | The per-operation retry table; any other operation falls back to 3 attempts 1 s apart |
| Retry.RetryConfigsAgree | src/kubeflow_mini/operator/mljob_handler.py:46-63 | The configuration-driven decorator uses the same attempts and delays as the handlers' table for every operation, and 'patch' falls back to 3 attempts 1 s apart |
| Retry.LinearDelays | src/kubeflow_mini/operator/handlers.py:106-111 | The sleep before retry k+1 is delay·(k+1): linear, not exponential |
| Retry.Decisive | src/kubeflow_mini/operator/handlers.py:82-95 | A success is returned, a 404 becomes ResourceNotFoundError at once, and any other ApiException except 409 is re-raised at once |
| Retry.RetryOnError | src/kubeflow_mini/operator/handlers.py:57-113 | The attempt loop's outcome, number of calls and sleeps are exactly those of the recursive specification RetrySpec |
| Retry.FirstDecisiveAttempt | src/kubeflow_mini/operator/handlers.py:79-103 | When attempt k is the first that is not a 409 or a non-API exception, the run makes k+1 calls, sleeps k linear delays and ends with that attempt's classified outcome |
| Retry.AllAttemptsRetried | src/kubeflow_mini/operator/handlers.py:79-111 | When every attempt is retryable, all max_retries calls are made with a sleep after each, and the last error decides: a 409 surfaces as ResourceConflictError, anything else is re-raised |
| Retry.RetryBounds | src/kubeflow_mini/operator/handlers.py:72-103 | The wrapped function is called at most max_retries times, there are no more sleeps than calls, and the sleeps are the linear schedule |
| Retry.ReturnedIsLastCall | src/kubeflow_mini/operator/handlers.py:79-103 | What the decorator ends with comes from its last call, and every earlier call failed in a retryable way |
| Retry.Bound | src/kubeflow_mini/operator/mljob_handler.py:61-65 | Each attempt answers the body's call when the wrapper's `logger=` keyword binds, and the TypeError on every attempt otherwise |
| Retry.UnboundCallExhausts | src/kubeflow_mini/operator/handlers.py:78-111 | A call that does not bind is retried max_retries times with the linear sleeps and its TypeError is raised at the end |
| Retry.WrapperBounds | src/kubeflow_mini/operator/handlers.py:72-111 | For any wrapped function: at most max_retries calls, sleeps a prefix of the linear schedule, and an unbound call ends in its TypeError |
| Quantity.ParseShowCpu | src/kubeflow_mini/operator/project_handler.py:200-206 | parse_cpu reads back exactly the millicores the usage writer prints |
| Quantity.ParseCpuMillicores | src/kubeflow_mini/operator/project_handler.py:200-206 | "<n>m" parses as n millicores |
| Quantity.ParseCpuCores | src/kubeflow_mini/operator/project_handler.py:200-206 | A plain number n parses as n cores, 1000·n millicores |
| Quantity.ParseZero | src/kubeflow_mini/operator/project_handler.py:200-231 | "0" parses as zero CPU and zero memory |
| Quantity.MemoryUnitsTable | src/kubeflow_mini/operator/project_handler.py:208-231 | The suffix table has binary suffixes before decimal ones, no suffix is another's tail, and every multiplier is positive |
| Quantity.ParseMemoryWithUnit | src/kubeflow_mini/operator/project_handler.py:208-231 | "<n><unit>" parses as n times the unit's multiplier, for every unit Ki..Ei and K..E |
| Quantity.ParseShowMemory | src/kubeflow_mini/operator/project_handler.py:208-231 | parse_memory reads back exactly the bytes the usage writer prints (a plain number, no suffix) |
| Quantity.MatchUnit | src/kubeflow_mini/operator/project_handler.py:228-231 | The suffix search finds the first table entry the text ends with, or reports that none matches |
| Quantity.CpuMillicoresValidity | src/operator/utils.py:403-413 | "<n>m" is a valid CPU value iff 0 < n ≤ 256000 |
| Quantity.CpuCoresValidity | src/operator/utils.py:403-413 | A whole number of cores n is valid iff 0 < n ≤ 256 |
| Quantity.HalfCoreIsValid | src/operator/utils.py:403-413 | A fractional core count inside (0, 256] such as "0.5" is valid |
| Quantity.OverMaxCoresIsInvalid | src/operator/utils.py:403-413 | "256.5" cores is invalid |
| Quantity.GpuValidity | src/operator/utils.py:428-434 | A GPU value, as text or as an integer, is valid iff it is an integer in 0..16 |
| Quantity.ValidatedMemoryUnitsTable | src/operator/utils.py:415-426 | The validator's suffixes Ki, Mi, Gi, Ti form a table whose multipliers are 1024^1..1024^4 |
| Quantity.MemoryValidity | src/operator/utils.py:415-426 | "<n><Ki/Mi/Gi/Ti>" is valid iff 0 < n·1024^k ≤ 1024^4 |
| Quantity.MemoryNeedsBinarySuffix | src/operator/utils.py:415-426 | A plain byte count is never a valid memory value |
| Quantity.MemoryRejectsDecimalSuffix | src/operator/utils.py:415-426 | A decimal suffix such as G is never valid |
| Quantity.ConvertMemoryToBytesWithUnit | src/backend/stats.py:134-152 | "<n><Ki..Ti>" converts to n·1024^k bytes |
| Quantity.ConvertMemoryToBytesPlain | src/backend/stats.py:134-152 | An integer without a suffix converts to itself |
| Quantity.ConvertMemoryToBytesFraction | src/backend/stats.py:134-152 | A fractional amount such as "1.5Gi" does not parse and converts to 0 |
| TrainingSpec.ContainersValid | src/operator/utils.py:380-397 | The inner loop passes iff every container's cpu, memory and GPU requests are absent, falsy or valid |
| TrainingSpec.ValidateResourceRequests | src/operator/utils.py:368-401 | Valid iff every container of every dict-valued replica spec has valid requests; entries that are not dicts are skipped |
| TrainingSpec.ContainerAmounts | src/kubeflow_mini/operator/mljob_handler.py:294-318 | A container's amounts are its gpu request as an int and its cpu and memory requests parsed, with '0' as the default |
| TrainingSpec.ContainersRequest | src/kubeflow_mini/operator/mljob_handler.py:293-318 | The container loop adds replicas × each container's request, giving ContainersTotalWith |
| TrainingSpec.EntryRequest | src/kubeflow_mini/operator/mljob_handler.py:286-319 | One replica spec contributes its containers' total with replicas defaulting to 1; a non-dict value contributes nothing |
| TrainingSpec.CalculateResourceRequest | src/kubeflow_mini/operator/mljob_handler.py:275-321 | The nested loops starting from zero compute RequestTotalWith, the left-to-right sum over entries; an unparseable request gives None (the exception) |
| TrainingSpec.SumSomeNoneSticks | src/kubeflow_mini/operator/mljob_handler.py:275-321 | One failing container makes the whole request fail |
| TrainingSpec.SumSomeAppend | src/kubeflow_mini/operator/mljob_handler.py:275-321 | The request of a concatenation of entries is the sum of the requests of its parts |
| TrainingSpec.NonDictIgnored | src/kubeflow_mini/operator/mljob_handler.py:285-287 | Inserting a non-dict entry anywhere leaves the total unchanged |
| TrainingSpec.SingleContainerScales | src/kubeflow_mini/operator/mljob_handler.py:289-319 | A single-container spec counts the container replicas times, once when replicas is absent |
| Quota.ValidateQuota | src/kubeflow_mini/operator/project_handler.py:125-160 | Checks gpu, cpu, memory and storage in order; an empty or absent dimension passes |
| Quota.ValidateQuotaMeaning | src/kubeflow_mini/operator/project_handler.py:125-160 | For parseable quotas, validation passes iff no dimension's request exceeds its limit |
| Quota.ViolatesQuotaWith | src/kubeflow_mini/operator/project_handler.py:162-198 | An empty quota is never violated; a dimension counts only when present in both usage and quota |
| Quota.ViolatesQuotaMeaning | src/kubeflow_mini/operator/project_handler.py:162-198 | For parseable amounts, violation holds iff some dimension present in both has usage strictly above its limit |
| Quota.UsageAtLimitAllowed | src/kubeflow_mini/operator/project_handler.py:169-196 | Usage equal to every limit, job count included, is not a violation |
| Quota.OneJobOverIsViolation | src/kubeflow_mini/operator/project_handler.py:194-196 | currentJobs one above maxJobs is a violation whatever else |
| Quota.CreateProject | src/kubeflow_mini/operator/project_handler.py:20-54 | A valid quota gives phase Active, usage gpu 0, cpu/memory/storage "0", currentJobs 0 and a Created condition; an invalid one a PermanentError |
| Quota.InitialUsageWithinQuota | src/kubeflow_mini/operator/project_handler.py:33-42 | The initial zero usage violates no quota with non-negative limits |
| Quota.UpdateProject | src/kubeflow_mini/operator/project_handler.py:57-91 | An update is refused when the new quota is invalid or the existing usage already violates it |
| Quota.AnyActive | src/kubeflow_mini/operator/project_handler.py:245-249 | True iff some listed job is in phase Created or Running |
| Quota.DeleteProject | src/kubeflow_mini/operator/project_handler.py:94-123 | A delete succeeds with phase Terminated iff the retried listing answers "no active job", a listed active job refuses it, and any other failure is permanent; for any binding of the retried call |
| Quota.HasActiveJobs | src/kubeflow_mini/operator/project_handler.py:233-252 | An unbound call of the decorator answers its TypeError, whatever the listings |
| Quota.DeleteProjectAsWritten | src/kubeflow_mini/operator/project_handler.py:94-123 | As written has_active_jobs takes no logger, so every delete ends in a PermanentError with the TypeError text |
| Quota.DeleteProjectAfterNotFound | src/kubeflow_mini/operator/project_handler.py:250-252 | Once the call binds, a 404 from the listing counts as no active jobs and the project is deleted |
| Quota.DeleteProjectBlockedByRunningJob | src/kubeflow_mini/operator/project_handler.py:102-105 | Once the call binds, a listed Running job blocks the delete |
| Quota.OperatorReadsBack | src/kubeflow_mini/operator/mljob_handler.py:413-428 | The operator's readers read back every amount its usage writer prints |
| Quota.NewUsageAdds | src/kubeflow_mini/operator/mljob_handler.py:413-428 | The new usage reads back as old usage plus the delta in every dimension, with jobs_delta added to currentJobs and missing keys read as 0 |
| Quota.CommitThenReleaseDoubleCounts | src/kubeflow_mini/operator/mljob_handler.py:211-214 | As written, creating then deleting a job restores the job count but leaves resources at usage plus twice the request |
| Quota.CommitThenReleaseRestores | src/kubeflow_mini/operator/mljob_handler.py:211-214 | With the intended release, committing then releasing gives back the starting usage |
| Quota.MergeUsage | src/kubeflow_mini/operator/mljob_handler.py:125-129 | The merged dict takes the request's four resource keys and keeps only currentJobs from the current usage |
| Quota.AdmissionIgnoresCurrentUsage | src/kubeflow_mini/operator/mljob_handler.py:125-129 | As written, two projects with the same job count and quota admit the same requests whatever resources they already use |
| Quota.AdmissionAtFullCpu | src/kubeflow_mini/operator/mljob_handler.py:125-129 | As written, a project already at its CPU limit admits a job whose own request fits the limit |
| Quota.AdmissionAtMaxJobs | src/kubeflow_mini/operator/mljob_handler.py:125-129 | As written, a project already running maxJobs jobs admits one more |
| Quota.AdmitMeaning | src/kubeflow_mini/operator/mljob_handler.py:125-129 | With the intended test, a job is admitted iff current usage plus its request, with one more job, stays within every limit |
| Quota.AdmitAtFullCpuRejects | src/kubeflow_mini/operator/mljob_handler.py:125-129 | With the intended test, a project at its CPU limit refuses any job asking for CPU |
| Quota.AdmitAtMaxJobsRejects | src/kubeflow_mini/operator/mljob_handler.py:125-129 | With the intended test, a project running maxJobs jobs refuses another |
| MLJobHandler.ValidateProjectOnce | src/kubeflow_mini/operator/mljob_handler.py:238-256 | One attempt succeeds iff the project is found and Active, and then returns it |
| MLJobHandler.ValidateProject | src/kubeflow_mini/operator/mljob_handler.py:238-256 | At most three lookups with sleeps of 1, 2, 3 s; an unbound call answers its TypeError |
| MLJobHandler.ValidateProjectAsWritten | src/kubeflow_mini/operator/mljob_handler.py:238-256 | As written the function has no logger parameter: three TypeErrors, sleeps 1, 2, 3 s, and the TypeError is raised |
| MLJobHandler.ValidateProjectFindsActive | src/kubeflow_mini/operator/mljob_handler.py:238-256 | Once the call binds, an Active project on the first lookup is returned at once, without a sleep |
| MLJobHandler.ValidateProjectMissing | src/kubeflow_mini/operator/mljob_handler.py:253-255 | Once the call binds, an absent project is reported missing after three calls and sleeps of 1, 2, 3 s |
| MLJobHandler.ValidateProjectInactive | src/kubeflow_mini/operator/mljob_handler.py:249-250 | Once the call binds, an inactive project is refused after three calls the same way |
| MLJobHandler.ValidateProjectReturnsActive | src/kubeflow_mini/operator/mljob_handler.py:238-256 | Once the call binds, a returned project is Active and is one of the first three lookups |
| MLJobHandler.ValidateOwnerOnce | src/kubeflow_mini/operator/mljob_handler.py:259-273 | One attempt succeeds iff the owner is found |
| MLJobHandler.ValidateOwner | src/kubeflow_mini/operator/mljob_handler.py:259-273 | At most three lookups with sleeps of 1, 2, 3 s; an unbound call answers its TypeError |
| MLJobHandler.UpdateProjectUsageOnce | src/kubeflow_mini/operator/mljob_handler.py:395-442 | One attempt succeeds iff the get succeeds, the amounts parse and the patch succeeds, and it writes the new usage |
| MLJobHandler.UpdateProjectUsageWith | src/kubeflow_mini/operator/mljob_handler.py:395-442 | At most three attempts with sleeps of 1, 2, 3 s; an unbound call answers its TypeError |
| MLJobHandler.UpdateProjectUsageWrites | src/kubeflow_mini/operator/mljob_handler.py:395-442 | Once the call binds, a successful update wrote the usage of one of its first three gets plus the delta, with jobs_delta added |
| MLJobHandler.UpdateProjectUsageMissing | src/kubeflow_mini/operator/mljob_handler.py:439-442 | Once the call binds, a project gone on every get is reported missing after three attempts |
| MLJobHandler.CreateMLJobWith | src/kubeflow_mini/operator/mljob_handler.py:100-182 | For any binding: missing references fail permanently; no outcome is temporary; the create succeeds exactly when both validations pass, the request parses, the merged usage is within quota, the training job is created and the usage commit of +1 job succeeds, and then records the request; a request over quota fails permanently with "Resource quota exceeded" |
| MLJobHandler.AdmitAndCreate | src/kubeflow_mini/operator/mljob_handler.py:120-182 | Never temporary; succeeds exactly when the request parses, is admitted against the merged usage, the training job is created and the usage is committed; a request over quota fails permanently with "Resource quota exceeded" |
| MLJobHandler.CreateMLJobAsWrittenFails | src/kubeflow_mini/operator/mljob_handler.py:100-182 | As written, every create naming a project and an owner fails permanently with validate_project's TypeError |
| MLJobHandler.CreateConflictIsPermanent | src/kubeflow_mini/operator/mljob_handler.py:152-182 | Once the call binds, a 409 on the training-job create fails the MLJob permanently |
| MLJobHandler.DeleteMLJobWith | src/kubeflow_mini/operator/mljob_handler.py:185-236 | For any binding: never temporary; succeeds with phase Deleted iff the training delete succeeds or answers 404 and, for a job with a project, the usage update succeeds |
| MLJobHandler.DeleteIgnoresMissingTrainingJob | src/kubeflow_mini/operator/mljob_handler.py:206-208 | Once the call binds, a 404 from the training-job delete does not stop the delete |
| MLJobHandler.DeleteAddsRecordedUsage | src/kubeflow_mini/operator/mljob_handler.py:211-214 | Once the call binds, a successful delete writes usage plus the recorded resources with one job fewer (see Findings) |
| MLJobHandler.DeleteMLJobAsWritten | src/kubeflow_mini/operator/mljob_handler.py:185-236 | As written, a delete succeeds iff the job names no project (and its training job is gone); otherwise update_project_usage's TypeError fails it |
| KfHandlers.ManifestError | src/kubeflow_mini/operator/handlers.py:199-201 | A malformed manifest raises before any call, with an exception that is not an ApiException |
| KfHandlers.MetadataFor | src/kubeflow_mini/operator/handlers.py:204-217 | The labels are job-id, project and owner (default ''), the priority annotation defaults to "50", and the tags are joined with ',' |
| KfHandlers.TagsRoundTrip | src/kubeflow_mini/operator/handlers.py:212-216 | The tags annotation split on ',' gives the tags back when there is at least one and none contains ',' |
| KfHandlers.GetTrainingJobOnce | src/kubeflow_mini/operator/handlers.py:145-174 | A 404 for a well-formed manifest means "no job" |
| KfHandlers.GetTrainingJob | src/kubeflow_mini/operator/handlers.py:145-174 | At most three calls with sleeps of 1, 2, 3 s; an unbound call answers its TypeError |
| KfHandlers.CreateTrainingJobOnce | src/kubeflow_mini/operator/handlers.py:177-237 | A non-dict spec or one without apiVersion or kind raises InvalidSpecError; success sends the stamped metadata after a get that found nothing |
| KfHandlers.CreateTrainingJob | src/kubeflow_mini/operator/handlers.py:177-237 | At most three calls with sleeps of 2, 4, 6 s; an unbound call answers its TypeError |
| KfHandlers.CreateInvalidSpecRetried | src/kubeflow_mini/operator/handlers.py:194-197 | Once the call binds, an invalid spec is retried and surfaces as InvalidSpecError after three calls and sleeps 2, 4, 6 s |
| KfHandlers.CreateStampsMetadata | src/kubeflow_mini/operator/handlers.py:200-231 | Once the call binds, a successful create sent the stamped metadata, after a get that answered "no job" |
| KfHandlers.DeleteTrainingJobOnce | src/kubeflow_mini/operator/handlers.py:240-277 | An absent job or a 404 from the delete returns normally |
| KfHandlers.DeleteTrainingJob | src/kubeflow_mini/operator/handlers.py:240-277 | At most five calls with sleeps of 1..5 s; an unbound call answers its TypeError |
| KfHandlers.DeleteAbsentJobSucceeds | src/kubeflow_mini/operator/handlers.py:259-263 | Once the call binds, deleting a job that is not there succeeds at the first call: the delete is idempotent |
| KfHandlers.FailureOf | src/kubeflow_mini/operator/handlers.py:325-333 | A failure is temporary iff it is a ResourceConflictError, and permanent otherwise |
| KfHandlers.CreateMLJob | src/kubeflow_mini/operator/handlers.py:280-333 | For any binding: a missing spec or training fails permanently, a conflict is temporary with delay 10, and success is phase Created with exactly one condition |
| KfHandlers.CreateExistingJobIsTemporary | src/kubeflow_mini/operator/handlers.py:220-222 | Once the call binds, a job found on every attempt ends as a conflict retried by kopf after 10 s |
| KfHandlers.CreateMLJobAsWritten | src/kubeflow_mini/operator/handlers.py:280-333 | As written the logger is passed twice: three TypeErrors with sleeps 2, 4, 6 s, and every create with a training fails permanently |
| KfHandlers.DeleteMLJob | src/kubeflow_mini/operator/handlers.py:336-375 | For any binding: never temporary; an absent training gives Deleted; for a training, Deleted exactly when the delete succeeds, no patch (None) exactly when it raises ResourceNotFoundError, and otherwise a PermanentError with the error's text |
| KfHandlers.DeleteMLJobAsWritten | src/kubeflow_mini/operator/handlers.py:336-375 | As written, five TypeErrors with sleeps 1..5 s, and every delete with a training fails permanently |
| KfHandlers.UpdateMLJob | src/kubeflow_mini/operator/handlers.py:378-436 | For any binding: phase Running exactly when there is a training, the old job's delete (when the old spec had one) succeeds and the new job's create succeeds; a failed delete or create is classified as create_ml_job does (conflict temporary after 10 s, anything else permanent) |
| KfHandlers.UpdateDeletesFirst | src/kubeflow_mini/operator/handlers.py:406-426 | Once the call binds, when the old job's delete fails, the create answers play no part |
| KfHandlers.UpdateMLJobAsWritten | src/kubeflow_mini/operator/handlers.py:378-436 | As written, every update with a training fails permanently with the TypeError of the first retried call it makes |
| KfHandlers.MonitorJobStatus | src/kubeflow_mini/operator/handlers.py:439-494 | The phase is capitalised, a completion time is set iff the phase is succeeded or failed, and there is one condition of that phase |
| OperatorUtils.Lookup | src/operator/utils.py:436-485 | d.get(key, default) answers the default for an absent key |
| OperatorUtils.AtLeast | src/operator/utils.py:473-475 | The job-count comparison is count ≥ max_jobs for an int, and raises for a non-number |
| OperatorUtils.GroupAndVersionMeaning | src/operator/utils.py:24-69 | The api_version test holds iff the text has exactly one '/' |
| OperatorUtils.CreateTrainingJob | src/operator/utils.py:24-69 | A falsy training raises ValueError; success iff the training is a dict with a two-part api_version and the cluster accepts; an ApiException is passed on |
| OperatorUtils.DeleteTrainingJob | src/operator/utils.py:71-103 | Nothing to do for a falsy or malformed training; a 404 is swallowed and any other ApiException is re-raised |
| OperatorUtils.GetTrainingJobStatus | src/operator/utils.py:105-143 | None for a falsy training; the job's status otherwise; failures, a 404 included, propagate |
| OperatorUtils.ValidateProjectQuotas | src/operator/utils.py:145-156 | Valid iff quotas is a dict with int gpu_limit, number cpu_limit, str memory_limit and int max_jobs |
| OperatorUtils.ValidateProjectQuotasCases | src/operator/utils.py:145-156 | Absent or non-dict quotas are invalid, and a bool passes as an int |
| OperatorUtils.ShouldUpdateJobsMeaning | src/operator/utils.py:158-162 | Symmetric, false on an unchanged spec, true iff the quotas maps differ, with absent quotas reading as {} |
| OperatorUtils.ShouldUpdateOwnerResourcesMeaning | src/operator/utils.py:221-226 | False on an unchanged spec, blind to keys other than role and permissions, true when role changes |
| OperatorUtils.CheckProjectQuota | src/operator/utils.py:436-485 | A missing project name or a 404 denies; an ApiException other than 404 propagates |
| OperatorUtils.CheckProjectQuotaListsFirst | src/operator/utils.py:459-481 | The job listing comes before the quota type test: its non-404 ApiException propagates even for quotas that are not a dict |
| OperatorUtils.CheckProjectQuotaMeaning | src/operator/utils.py:436-485 | Admits iff the job count is below max_jobs; equality already denies, and an absent max_jobs reads as 0 |
| OperatorUtils.CheckProjectQuotaNeedsQuotas | src/operator/utils.py:459-461 | A project without quotas, or with empty quotas, denies every job |
| OperatorUtils.ShouldCleanupResource | src/operator/utils.py:293-350 | False without a creationTimestamp; true iff the age exceeds max_age, or a terminal job's completion age does, or orphan cleanup is on and the training job answers 404 |
| OperatorUtils.YoungLiveJobIsKept | src/operator/utils.py:293-350 | A young job whose training job exists, or whose lookup failed other than with 404, is kept |
| Services.ValidateMLJobSpec | src/operator/services.py:23-55 | True iff job_id, project, owner and training are present, training has api_version, kind and spec, and the requests are valid |
| Services.ConflictIsTemporary | src/operator/services.py:81-88 | A 409 becomes a TemporaryError with delay 10, any other failure a PermanentError with the prefix, and success passes through |
| Services.CreateTrainingJobResource | src/operator/services.py:69-88 | Every failure becomes a PermanentError or the 10 s TemporaryError |
| Services.UpdateTrainingJobResource | src/operator/services.py:90-113 | Every failure becomes a PermanentError or the 10 s TemporaryError |
| Services.UpdateDeletesBeforeCreating | src/operator/services.py:106-107 | The update succeeds iff both the delete and the create do, and a failed delete decides the outcome whatever the create would answer |
| Services.CreateAndUpdateAsWritten | src/operator/services.py:81-113 | As written create_training_job lacks its labels argument: every create is a PermanentError with that TypeError, and so is every update whose delete went through |
| Services.DeleteTrainingJobResource | src/operator/services.py:115-134 | Succeeds iff the delete succeeds or answers 404; otherwise a PermanentError |
| Services.GetTrainingJobStatus | src/operator/services.py:150-162 | A 404 gives the synthetic not-found status; other failures a TemporaryError with delay 30 |
| Services.AsWrittenAlwaysRetries | src/operator/services.py:136-162 | As written, the self-call ends in a TemporaryError with delay 30 at every depth |
| Services.StatusIsReported | src/operator/services.py:136-162 | The intended wrapper reports the cluster's status; the as-written one never does |
| Services.ShouldUpdateTrainingJob | src/operator/services.py:164-189 | True iff api_version, kind or spec differ, and true when either training is not a dict |
| Services.ShouldUpdateSeesWholeSpec | src/operator/services.py:181-185 | Two trainings whose specs differ anywhere, an image or a replica name included, need an update, and equal ones do not |
| Services.CreateMLJobStatus | src/operator/services.py:191-220 | Phase and message are always set, observed_generation defaults to 1, times only when flagged, training_status when passed |
| OperatorHandlers.Settle | src/operator/handlers.py:59-68 | A TemporaryError is re-raised, a PermanentError becomes a Failed status with its text, and success gives the success status |
| OperatorHandlers.Gates | src/operator/handlers.py:35-58 | Passes iff the spec is valid and the quota check admits |
| OperatorHandlers.CreateMLJob | src/operator/handlers.py:21-68 | An invalid spec or a quota denial returns Failed; success is Created with observed_generation from metadata; only a conflict is temporary |
| OperatorHandlers.CreateMLJobAsWritten | src/operator/handlers.py:21-68 | As written, a spec that passes the gates is reported Failed with the missing-labels text, never Created |
| OperatorHandlers.UpdateMLJob | src/operator/handlers.py:71-121 | An invalid new spec returns Failed; success reports phase Created; a raised error is the conflict TemporaryError |
| OperatorHandlers.UpdateLeavesUnchangedTraining | src/operator/handlers.py:88-102 | When the training did not change, the delete and create answers make no difference |
| OperatorHandlers.UpdateMLJobAsWritten | src/operator/handlers.py:71-121 | As written, a changed training whose delete went through is reported Failed with the missing-labels text; Updated iff the gates pass and the training did not change |
| OperatorHandlers.DeleteMLJob | src/operator/handlers.py:124-159 | Never raises; Deleted iff the delete succeeds or answers 404, otherwise Failed |
| OperatorHandlers.ReconcileMLJob | src/operator/handlers.py:162-199 | A TemporaryError is re-raised; a non-empty status yields a patch with phase defaulting to Running and a completion time for Succeeded or Failed |
| OperatorHandlers.ReconcileAsWrittenNeverUpdates | src/operator/handlers.py:162-199 | With the services as written, reconcile re-raises a 30 s TemporaryError every time |
| OperatorHandlers.ReconcileWithIntendedServices | src/operator/handlers.py:162-199 | With the intended services, a missing training job is reported Failed and a known status is reported |
| Prototype.CreatePyTorchJobManifest | operator.py:58-88 | kubeflow.org/v1 PyTorchJob with one Worker group of the given replicas, restartPolicy OnFailure, one container named pytorch with the image and command |
| Prototype.CreateMLJob | operator.py:15-56 | A missing image fails permanently first, a type other than pytorch fails permanently, success answers "created", and every failure is raised |
| Prototype.TypeIgnoresCase | operator.py:21-41 | The type is compared in lower case, and an absent type means pytorch |
| Prototype.DeleteMLJob | operator.py:91-114 | A non-pytorch type reports deleted without a call; a 404 answers "not found"; any other ApiException fails permanently |
| Prototype.UpdateMLJob | operator.py:117-128 | Succeeds iff the delete and the create do, with the create's answer; every failure is permanent with the update prefix |
| Prototype.UpdateDeletesFirst | operator.py:117-128 | A failed delete stops the update whatever the create would answer |
| JobStore.Page | src/backend/crud.py:34-37 | The rows from offset `skip` up to `skip + limit`, each clamped to the table, in table order |
| JobStore.PagesConcatenate | src/backend/crud.py:34-37 | Two consecutive pages are the page twice as long |
| JobStore.ProjectJobs | src/backend/crud.py:100-102 | Exactly the rows of the project, each as often as in the table |
| JobStore.ProjectJobsAppend | src/backend/crud.py:100-102 | A new row comes last among its project's rows and leaves the other projects' rows as they were |
| JobStore.UserJobs | src/backend/crud.py:105-107 | Exactly the rows of the user, each as often as in the table |
| JobStore.OwnedProjects | src/backend/crud.py:65-67 | Exactly the projects of the owner, each as often as in the table |
| JobStore.FindJob | src/backend/crud.py:90-92 | The row with that primary key, or none exists |
| JobStore.FindProject | src/backend/crud.py:55-57 | The project with that key, or none exists |
| JobStore.WithStatus | src/backend/crud.py:109-120 | Sets status and updated_at; started_at only the first time the status is running; completed_at for completed and failed but not succeeded; nothing else changes |
| JobStore.StartedAtSetOnce | src/backend/crud.py:116-117 | Repeated running updates keep the first start time |
| JobStore.Backend.constructor | src/backend/crud.py:71-87 | An empty, consistent store |
| JobStore.Backend.CreateMLJob | src/backend/crud.py:71-87 | The intended create: appends NewJobRecord under a fresh key and changes nothing else |
| JobStore.ConstructorError | src/backend/models.py:40-63 | The entity refuses a keyword that is not a column, then a missing required column; it stores a row iff neither happens |
| JobStore.NewJobRecord | src/backend/crud.py:71-87 | The intended row: pending, created and updated now, no times, no usage, no errors |
| JobStore.CreateMLJobAsWrittenAlwaysRaises | src/backend/crud.py:71-87 | As written seven keywords are not columns and job_id and training are missing, so every create raises |
| JobStore.Backend.GetMLJob | src/backend/crud.py:90-92 | Found iff a row has that key, and then it is that row |
| JobStore.Backend.GetUsers | src/backend/crud.py:35-37 | The page of the users from `skip` to `skip + limit` |
| JobStore.Backend.GetProjects | src/backend/crud.py:60-62 | The page of the projects from `skip` to `skip + limit` |
| JobStore.Backend.GetMLJobs | src/backend/crud.py:95-97 | The page of the jobs from `skip` to `skip + limit` |
| JobStore.Backend.UpdateMLJobStatus | src/backend/crud.py:109-120 | An unknown key returns None and changes nothing; otherwise only that row changes, to WithStatus |
| JobStore.Backend.GetUserProjects | src/backend/crud.py:65-67 | The page of the owner's projects from `skip` to `skip + limit` |
| JobStore.Backend.GetProjectMLJobs | src/backend/crud.py:100-102 | The page of the project's rows from `skip` to `skip + limit` |
| JobStore.Backend.GetUserMLJobs | src/backend/crud.py:105-107 | The page of the user's rows from `skip` to `skip + limit` |
| Sync.Observed | src/backend/sync.py:38-59 | The status fields of ObservedStatus, with usage from the cluster (cpu, memory and GPU) and sync_errors reset; nothing else changes |
| Sync.ObservedStatus | src/backend/sync.py:38-59 | Status is the lower-cased phase (default unknown), message and training status copied, started_at set once, completed_at for succeeded or failed; nothing else changes |
| Sync.SyncOne | src/backend/sync.py:34-73 | A status resets the error count; an empty status adds one and, at the threshold 3, fails the job with completed_at set and every other field unchanged; an exception only adds one |
| Sync.SweepOne | src/backend/sync.py:31 | Terminal rows are left untouched |
| Sync.SyncJobStatus | src/backend/sync.py:21-76 | Every row becomes SweepOne of itself and its own answer; one failure does not stop the rest; the keys stay consistent |
| Sync.VisitWith | src/backend/sync.py:34-76 | Over an entity with the sweep's columns a visit is SyncOne and the sweep goes on; without sync_errors it ends the sweep; without any of them it writes the status fields of a non-empty answer only |
| Sync.FirstLive | src/backend/sync.py:31 | The first row that is not terminal |
| Sync.SyncJobStatusAsWritten | src/backend/sync.py:21-76 | As written only the first live row is visited, and it becomes VisitWith of the declared columns; every other row is unchanged |
| Sync.AsWrittenVisitEndsSweep | src/backend/sync.py:61-76 | As written every visit ends the sweep, and an empty answer leaves the row as it was |
| Sync.MissesEscalate | src/backend/sync.py:61-69 | After n empty answers a job below the threshold has n more errors, and at the threshold it is failed with completed_at |
| Sync.RaisesOnlyCount | src/backend/sync.py:71-73 | Exceptions only count errors and never fail a job |
| Sync.ReportedFinishIsFinal | src/backend/sync.py:46-49 | A job reported succeeded or failed keeps its completion time and is not visited again |
| Sync.CleanOne | src/backend/sync.py:99-110 | A successful delete marks the row deleted with "Resource cleaned up"; a failed one leaves it as it was |
| Sync.CleanupStep | src/backend/sync.py:92-97 | Rows outside the selection are untouched |
| Sync.CleanupResources | src/backend/sync.py:79-113 | Every row becomes CleanupStep of itself and its own answer; one failure does not stop the rest |
| Sync.CleanupQuery | src/backend/sync.py:92-97 | The selection fails iff the entity lacks sync_errors; otherwise it holds exactly the selected rows |
| Sync.CleanupAsWrittenSelectsNothing | src/backend/sync.py:79-113 | As written the selection always fails, and it would succeed with sync_errors declared |
| Sync.CleanedStaysSelected | src/backend/sync.py:92-97 | A cleaned row stays selected on later runs |
| Sync.ShouldCleanupJobVersusSelection | src/backend/sync.py:115-127 | _should_cleanup_job and the selection disagree exactly on jobs aged exactly 30 days with fewer than 3 errors, and on younger terminal jobs with 3 or more |
| Sync.ShouldCleanupJob | src/backend/sync.py:115-127 | A terminal job with a completion time is cleaned iff it completed at least 30 whole days ago; any other job iff it has 3 or more errors |
| App.LiveIndices | src/backend/app.py:57 | The rows whose status is not a capitalised terminal name, in increasing order |
| App.TimerSyncOne | src/backend/app.py:61-70 | A failed sync adds one error and at the threshold sets "failed" with the attempts message |
| App.SyncTimer | src/backend/app.py:52-72 | Every live row is visited exactly once across the batches, and the others are untouched |
| App.FailedRowIsSweptAgain | src/backend/app.py:57-69 | A row the timer failed is still live for the next sweep |
| App.WithoutExpired | src/backend/app.py:81-93 | Each row that is not an expired terminal row, as often as in the table, and no other |
| App.WithoutExpiredAppend | src/backend/app.py:81-93 | The kept rows stay in table order |
| App.WithoutExpiredKeepsKeys | src/backend/app.py:81-93 | Removing rows keeps the keys distinct and below the next key |
| App.KeepUnexpired | src/backend/app.py:81-93 | The loop keeps exactly WithoutExpired of the rows |
| App.RemoveExpired | src/backend/app.py:81-93 | The table becomes WithoutExpired of itself, whatever the cluster deletes answer |
| App.CheckConsistency | src/backend/app.py:96-128 | A missing resource is recreated with one more error below the threshold, and at the threshold the row fails with the lost message |
| App.CheckConsistencyAll | src/backend/app.py:96-128 | Every row becomes ConsistencyStep of itself and its answers; one failure does not stop the rest |
| App.CleanupTimer | src/backend/app.py:76-131 | The removal and then the consistency pass |
| App.RecreationsBounded | src/backend/app.py:110-125 | While the resource stays missing a job is recreated at most 3 − sync_errors times |
| App.AsWrittenIgnoresJobsPastFirstPage | src/backend/app.py:231-232 | As written, a project with 100 or more jobs and max_jobs above 100 is always admitted |
| App.AsWrittenAdmitsPastLimit | src/backend/app.py:231-232 | As written, a project with 150 jobs and max_jobs 120 admits another |
| App.AdmitAsWritten | src/backend/app.py:222-233 | Never refuses what the intended gate admits, and agrees with it whenever the project has at most 100 jobs |
| App.Admit | src/backend/app.py:222-233 | 404 for a missing project, 403 for a caller who is not the owner, 400 iff the project's job count has reached max_jobs |
| App.CreateNewMLJob | src/backend/app.py:215-235 | Creates a row only when admitted, and then the project has at most max_jobs jobs |
| Stats.UsageSplits | src/backend/stats.py:53-57 | GPU and memory totals add up over any split of the jobs |
| Stats.IdleJobsUseNothing | src/backend/stats.py:53-57 | Jobs that are not running contribute nothing |
| Stats.SumMemoryUsage | src/backend/stats.py:113-122 | The loop computes the running jobs' memory in bytes |
| Stats.CountStatus | src/backend/stats.py:76-84 | The number of jobs with exactly that status |
| Stats.CountsPartitionTotal | src/backend/stats.py:76-84 | The per-status counts plus the jobs of other statuses make up the total |
| Stats.CountsReachTotal | src/backend/stats.py:76-84 | The per-status counts sum to the total iff every status is a counted one |
| Stats.InsertByRecency | src/backend/stats.py:178-182 | Insertion keeps the order newest first, with missing update times last, and is a permutation |
| Stats.ByRecency | src/backend/stats.py:178-182 | A permutation of the jobs, newest first |
| Stats.RecentActivities | src/backend/stats.py:174-196 | The first min(n, limit) jobs by recency, one activity each |
| Stats.RecentAreNewest | src/backend/stats.py:174-196 | Every job left out is no newer than every job reported, and dated jobs come before undated ones |
| Stats.GetProjectStats | src/backend/stats.py:31-111 | None for an unknown project; otherwise the project's name, GPU and job limits, GPU and memory figures, status counts and five most recent activities |
| Stats.GetProjectStatsAsWritten | src/backend/stats.py:31-111 | As written, None iff the project is unknown or has a running job; otherwise the limits with every usage zero |
| JobDb.NewJob | src/kubeflow_mini/db/operations.py:9-31 | Present keys are stored as given; defaults framework_version '', distributed false, one worker, no ps or chief, empty args, env and resources; status created |
| JobDb.CreateJobAsWrittenAlwaysRaises | src/kubeflow_mini/db/operations.py:15-32 | As written, chief_replicas and env are not attributes of the entity, so every create raises |
| JobDb.JobDatabase.constructor | src/kubeflow_mini/db/operations.py:7-32 | An empty database |
| JobDb.JobDatabase.CreateJob | src/kubeflow_mini/db/operations.py:7-32 | A taken key or a missing framework or image raises and stores nothing; otherwise the new row is stored under its key |
| JobDb.JobDatabase.GetJob | src/kubeflow_mini/db/operations.py:60-62 | The row under (name, namespace), or none |
| JobDb.JobDatabase.UpdateJobStatus | src/kubeflow_mini/db/operations.py:35-46 | An unknown key returns None and changes nothing; otherwise only that row changes, to WithStatus |
| JobDb.JobDatabase.DeleteJob | src/kubeflow_mini/db/operations.py:49-57 | Soft delete: the key set is unchanged and the row is marked deleted and completed |
| JobDb.JobDatabase.ListJobs | src/kubeflow_mini/db/operations.py:65-74 | Exactly the stored rows that pass every given filter |
| JobDb.WithStatus | src/kubeflow_mini/db/operations.py:35-46 | Status and updated_at always, completed_at for completed and failed, error_message only when a non-empty one is given |
| JobDb.ErrorMessageSticks | src/kubeflow_mini/db/operations.py:42-43 | A later update without a message keeps the earlier message |
| JobDb.ListJobsConjunctive | src/kubeflow_mini/db/operations.py:65-74 | Filters are conjunctive, and no filter lists every row |
| JobDb.DeletedJobIsListed | src/kubeflow_mini/db/operations.py:49-57 | A soft-deleted job is still found and is listed under status deleted |

## Left out

- Kubernetes client calls, kopf registration and decorators, logging and `time.sleep`: every API answer is a `Call` parameter, and sleeps are recorded as delays.
- Concurrency: kopf may run handlers concurrently, and `update_project_usage` is a non-atomic read-modify-write. All handlers are modelled sequentially.
- Floats are modelled over integers:
  - `parse_cpu` and `parse_memory` go through `float()`, and the usage writer through `str(float)`. The model reads decimal text into integer millicores and bytes, yields None for an amount that is not a whole number of them, and writes integers.
  - The CPU figures and usage rates of `get_project_stats`, `_convert_bytes_to_memory` and `_calculate_usage_rate` are not modelled.
  - The `base` of `exponential_backoff` is a natural number.
- Clocks: `datetime.utcnow`, ISO timestamps and durations are integer `now` parameters or whole-day ages. Malformed timestamps are not modelled.
- Texts of exceptions: the `str()` of an ApiException (status, reason, body) and the exact texts of Python's KeyError, TypeError and AttributeError are fixed texts in the model.
- Python's dynamic typing: a null key is read as an absent key. Cross-type equality (1 == 1.0 == True) is modelled only as far as the `Value` datatype of the operator utilities carries it.
- `Retry.Exhausted`: a loop of zero attempts raises a TypeError in Python; the model returns a fixed text for it.
- KfHandlers.CreateTrainingJobOnce: `training_spec['metadata']` is updated in place in the source; the model returns the metadata that was sent.
- The API group, version and plural constants of the custom-object calls.
- `Services.CreateMLJobStatus`: the callers also pass a `reason` keyword. The builder collects it in `**kwargs` (src/operator/services.py:191) and ignores it, and so does the model.
- `src/operator/services.py:57-67` (`validate_project_quota`) only forwards to `check_project_quota` and is modelled by `OperatorUtils.CheckProjectQuota`.
- `src/backend/app.py` cannot be imported as written. Lines 13-22 import `init_database`, the schemas `User`, `UserCreate`, `MLJobCreate` and others, and `sync_mljob_status`, none of which models.py, schemas.py or crud.py defines. The module also uses `select`, `db_session`, `logger`, `k8s_api`, `create_k8s_mljob` and `delete_k8s_mljob` without importing them. The `App` members model the timers and the create gate as if the module loaded, with each missing call an oracle; a successful `sync_mljob_status` leaves the row as it is.
- `src/kubeflow_mini/operator/mljob_handler.py` and its copy `src/operator/mljob_handler.py` cannot be imported as written: line 23 runs `kopf.CustomObjectsApi()` at import time, and kopf has no such attribute (handlers.py:19 builds the client from the kubernetes package). The `MLJobHandler` members model the module as if that line built a working client, whose answers are the `Call` parameters.
- HasActiveJobs: `has_active_jobs` makes the same `kopf.CustomObjectsApi()` call inside its try (src/kubeflow_mini/operator/project_handler.py:237). The AttributeError is not an ApiException, so even with a binding call every attempt would raise it; the model reads the listing from its `Call` parameter as if the client existed. Quota.DeleteProject therefore describes a working client.
- `src/backend/crud.py` cannot be imported as written: lines 9-10 import `UserCreate`, `ProjectCreate` and `MLJobCreate` from schemas.py, which defines only the `Notebook*` schemas, and `get_password_hash` from a `.security` module that does not exist. The `JobStore` members model the functions as if the module loaded.
- The cluster delete in part one of the cleanup timer is not a parameter: its outcome never changes the removal.
- Web routes, authentication, the command-line printing, entry points, configuration loaders, owner handlers, the notebook settings and `src/backend/k8s.py` are not part of this model.
- Stats.ByRecency: the order among jobs with equal update times (Python's stable sort) is not stated; only newest-first order and permutation are.
- JobStore.Backend.CreateMLJob: models the intended create. As written `crud.create_mljob` always raises (see Findings and JobStore.CreateMLJobAsWrittenAlwaysRaises). The request-schema fields that are not columns (framework, the requests, command, args, environment) are not stored.
- JobDb.JobDatabase.CreateJob: the entity's empty-string rule for required strings is not modelled; only absence counts as missing.
- Quantity.ParseCpu, ParseMemory and ConvertMemoryToBytes read plain decimal text only. Python's `float()` and `int()` also accept exponents ("1e3"), surrounding whitespace and underscores ("1_000"), and `float()` accepts "inf" and "nan"; the model answers None (or 0 bytes) for those.
- Quantity.IsValidCpuValue, IsValidMemoryValue and IsValidGpuValue read plain decimal text and integers only. Python's `int()` and `float()` also accept exponents ("1e2" as a CPU value), surrounding whitespace (" 2 ") and underscores ("1_0"), and `int()` truncates a float request (a GPU count of 3.7 is valid); the model has no float request value and answers invalid for that text.
- ValidateProjectMissing: states the behaviour once the retry decorator's call binds; as written the wrapped function takes no `logger` and every attempt raises a TypeError (MLJobHandler.ValidateProjectAsWritten).
- ValidateProjectInactive: states the behaviour once the retry decorator's call binds; as written the wrapped function takes no `logger` and every attempt raises a TypeError (MLJobHandler.ValidateProjectAsWritten).
- ValidateProjectReturnsActive: states the behaviour once the retry decorator's call binds; as written the wrapped function takes no `logger` and every attempt raises a TypeError (MLJobHandler.ValidateProjectAsWritten).
- ValidateProjectFindsActive: states the behaviour once the retry decorator's call binds; as written the wrapped function takes no `logger` and every attempt raises a TypeError (MLJobHandler.ValidateProjectAsWritten).
- UpdateProjectUsageWrites: states the behaviour once the retry decorator's call binds; as written the wrapped function takes no `logger` and every attempt raises a TypeError (MLJobHandler.DeleteMLJobAsWritten).
- UpdateProjectUsageMissing: states the behaviour once the retry decorator's call binds; as written the wrapped function takes no `logger` and every attempt raises a TypeError (MLJobHandler.DeleteMLJobAsWritten).
- CreateMLJobWith: its outcome clauses describe runs that bind; as written validate_project raises first (MLJobHandler.CreateMLJobAsWrittenFails).
- CreateConflictIsPermanent: states the behaviour once the retry decorator's call binds; as written the wrapped function takes no `logger` and every attempt raises a TypeError (MLJobHandler.CreateMLJobAsWrittenFails).
- DeleteMLJobWith: its success clause describes a run that binds; as written update_project_usage raises (MLJobHandler.DeleteMLJobAsWritten).
- DeleteIgnoresMissingTrainingJob: states the behaviour once the retry decorator's call binds; as written the wrapped function takes no `logger` and every attempt raises a TypeError (MLJobHandler.DeleteMLJobAsWritten).
- DeleteAddsRecordedUsage: states the behaviour once the retry decorator's call binds; as written the wrapped function takes no `logger` and every attempt raises a TypeError (MLJobHandler.DeleteMLJobAsWritten).
- DeleteProjectAfterNotFound: states the behaviour once the retry decorator's call binds and the listing client exists (see HasActiveJobs); as written the wrapped function takes no `logger` and every attempt raises a TypeError (Quota.DeleteProjectAsWritten).
- DeleteProjectBlockedByRunningJob: states the behaviour once the retry decorator's call binds and the listing client exists (see HasActiveJobs); as written the wrapped function takes no `logger` and every attempt raises a TypeError (Quota.DeleteProjectAsWritten).
- CreateInvalidSpecRetried: states the behaviour once the retry decorator's call binds; as written the logger is passed twice and every attempt raises a TypeError (KfHandlers.CreateMLJobAsWritten).
- CreateStampsMetadata: states the behaviour once the retry decorator's call binds; as written the logger is passed twice and every attempt raises a TypeError (KfHandlers.CreateMLJobAsWritten).
- DeleteAbsentJobSucceeds: states the behaviour once the retry decorator's call binds; as written the logger is passed twice and every attempt raises a TypeError (KfHandlers.DeleteMLJobAsWritten).
- CreateExistingJobIsTemporary: states the behaviour once the retry decorator's call binds; as written the logger is passed twice and every attempt raises a TypeError (KfHandlers.CreateMLJobAsWritten).
- CreateMLJob (KfHandlers): its success and conflict clauses describe runs that bind; as written the logger is passed twice and every attempt raises a TypeError (KfHandlers.CreateMLJobAsWritten).
- DeleteMLJob (KfHandlers): its Deleted, None and PermanentError outcomes for a training describe runs that bind; as written the logger is passed twice and every attempt raises a TypeError (KfHandlers.DeleteMLJobAsWritten).
- UpdateMLJob (KfHandlers): its outcome clauses describe runs that bind; as written the logger is passed twice and every attempt raises a TypeError (KfHandlers.UpdateMLJobAsWritten).
- UpdateDeletesFirst: states the behaviour once the retry decorator's call binds; as written the logger is passed twice and every attempt raises a TypeError (KfHandlers.UpdateMLJobAsWritten).
- CreateMLJob (OperatorHandlers): passes the cluster's answer to create_training_job; as written the call lacks its `labels` argument and always raises (OperatorHandlers.CreateMLJobAsWritten).
- UpdateMLJob (OperatorHandlers): the same for the create after the delete (OperatorHandlers.UpdateMLJobAsWritten).
- UpdateLeavesUnchangedTraining: holds as written too; a changed training is what the missing `labels` argument breaks (OperatorHandlers.UpdateMLJobAsWritten).
- Observed: writes gpu_usage, cpu_usage, memory_usage and sync_errors, which the backend entity (src/backend/models.py:40-63) does not declare; as written only the status fields are written before the sweep stops (Sync.VisitWith, Sync.ObservedStatus).
- SyncOne: the step over an entity that declares the sweep's columns; as written an empty or failing answer raises on sync_errors and ends the sweep (Sync.AsWrittenVisitEndsSweep).
- SyncJobStatus: the sweep over an entity that declares its columns; as written the first visited row ends it (Sync.SyncJobStatusAsWritten).
- MissesEscalate: the escalation over an entity that declares sync_errors; as written no count is stored, so no job is escalated (Sync.AsWrittenVisitEndsSweep).
- RaisesOnlyCount: the same; as written the count itself raises (Sync.AsWrittenVisitEndsSweep).
- CleanupStep: the step of a selection that translates; as written the selection names sync_errors and fails (Sync.CleanupAsWrittenSelectsNothing).
- CleanupResources: the same; as written nothing is cleaned (Sync.CleanupAsWrittenSelectsNothing).
- CleanedStaysSelected: the same; as written the selection never runs (Sync.CleanupAsWrittenSelectsNothing).
- ShouldCleanupJob: reads sync_errors, which the entity does not declare; nothing calls it.
- ShouldCleanupJobVersusSelection: compares two tests that both read sync_errors; it states what they would decide with the column declared.
- TimerSyncOne: models app.py as if it loaded (see above); app.py:66 also reads the undeclared sync_errors, which would end the sweep.
- SyncTimer: the same as TimerSyncOne.
- FailedRowIsSweptAgain: the same as TimerSyncOne.
- LiveIndices: models app.py as if it loaded (see above).
- WithoutExpired: its contract states which rows are kept and how often; App.WithoutExpiredAppend states their order. It models app.py as if it loaded (see above).
- KeepUnexpired: models app.py as if it loaded (see above).
- RemoveExpired: models app.py as if it loaded (see above).
- CheckConsistency: models app.py as if it loaded; app.py:112 also reads the undeclared sync_errors inside the per-job try, which would skip every recreate.
- CheckConsistencyAll: the same as CheckConsistency.
- CleanupTimer: the same as CheckConsistency.
- RecreationsBounded: the same as CheckConsistency.
- Admit: models app.py as if it loaded (see above).
- AdmitAsWritten: models app.py as if it loaded (see above).
- CreateNewMLJob: models app.py as if it loaded, with the intended create; as written crud.create_mljob always raises (JobStore.CreateMLJobAsWrittenAlwaysRaises).
- SumMemoryUsage: sums the undeclared memory_usage column as intended; as written the bare except answers "0" whenever a job runs.
- GetProjectStats: the statistics over an entity that declares the usage columns; as written a running job makes the source answer {} (Stats.GetProjectStatsAsWritten).

## Findings

| source | as written | input that shows it | evidently intended | confidence | as-written member | corrected member |
|---|---|---|---|---|---|---|
| src/operator/services.py:151 | `get_training_job_status` calls itself (the module function it shadows), so it recurses until the interpreter's limit and the RecursionError becomes a TemporaryError | any MLJob in reconcile | call the utilities' `get_training_job_status` and report its status | not executed | Services.AsWrittenAlwaysRetries | Services.StatusIsReported |
| src/kubeflow_mini/operator/mljob_handler.py:211-214 | once the logger binding is fixed, delete calls `update_project_usage(resourceUsage, -1)`, which adds the job's resources a second time | usage cpu 0, a job requesting 1000m: after create and delete the usage is 2000m | subtract the job's resources and one job | not executed | Quota.CommitThenReleaseDoubleCounts | Quota.CommitThenReleaseRestores |
| src/kubeflow_mini/operator/mljob_handler.py:125-129 | once the logger binding is fixed, admission tests `{**current_usage, **resource_request}`: the request alone against each limit, and the job count before the new job | a project at its CPU limit, or with currentJobs == maxJobs, admits another job | test current usage plus the request, with one more job | not executed | Quota.AdmissionAtFullCpu | Quota.AdmitAtFullCpuRejects |
| src/backend/app.py:231-232 | the job count is the length of `get_project_mljobs`, whose default limit caps it at 100 | a project with 150 jobs and max_jobs 120 | count every job of the project | not executed | App.AsWrittenAdmitsPastLimit | App.CreateNewMLJob |
| src/kubeflow_mini/db/operations.py:15-32 | `create_job` passes `chief_replicas` and `env`, which the entity (src/kubeflow_mini/db/models.py:7-28) does not declare, so every create raises | any job spec | store the job with those attributes | not executed | JobDb.CreateJobAsWrittenAlwaysRaises | JobDb.JobDatabase.CreateJob |
| src/kubeflow_mini/operator/mljob_handler.py:61-65 | the retry wrapper always passes `logger=`, but `validate_project` (line 238) takes no logger, so every attempt raises a TypeError | any create_mljob event naming a project and an owner | pass the logger only to functions that take one | not executed | MLJobHandler.CreateMLJobAsWrittenFails | MLJobHandler.CreateMLJobWith |
| src/kubeflow_mini/operator/mljob_handler.py:395 | `update_project_usage` takes no logger either, so the usage update of a delete always raises | any delete_mljob event naming a project | the same | not executed | MLJobHandler.DeleteMLJobAsWritten | MLJobHandler.DeleteMLJobWith |
| src/kubeflow_mini/operator/project_handler.py:233-234 | `has_active_jobs` takes no logger, so no project is ever deleted | any delete_project event | the same | not executed | Quota.DeleteProjectAsWritten | Quota.DeleteProject |
| src/kubeflow_mini/operator/handlers.py:78-81 | the call sites (306, 352, 408, 411, and 220, 259 inside) pass the logger by position as well as the wrapper's `logger=`: "multiple values for argument 'logger'" | any create_ml_job event with a training | pass the logger once | not executed | KfHandlers.CreateMLJobAsWritten | KfHandlers.CreateMLJob |
| src/kubeflow_mini/operator/handlers.py:352 | the same for the delete | any delete_ml_job event with a training | pass the logger once | not executed | KfHandlers.DeleteMLJobAsWritten | KfHandlers.DeleteMLJob |
| src/kubeflow_mini/operator/handlers.py:408-411 | the same for the update | any update_ml_job event with a training | pass the logger once | not executed | KfHandlers.UpdateMLJobAsWritten | KfHandlers.UpdateMLJob |
| src/backend/models.py:40-63 | the entity declares no sync_errors, gpu_usage, cpu_usage or memory_usage, which sync.py:54-73 writes: the first empty or failing answer ends the sweep and nothing escalates | a table whose first live row gets an empty answer | declare the four columns | not executed | Sync.SyncJobStatusAsWritten | Sync.SyncJobStatus |
| src/backend/sync.py:92-97 | the cleanup selection names the undeclared sync_errors and fails, so nothing is cleaned | any table | declare the column | not executed | Sync.CleanupAsWrittenSelectsNothing | Sync.CleanupResources |
| src/backend/stats.py:53-57 | the GPU sum reads the undeclared gpu_usage of running jobs, so the statistics are {} | a project with a running job | declare the column | not executed | Stats.GetProjectStatsAsWritten | Stats.GetProjectStats |
| src/backend/crud.py:71-87 | `create_mljob` passes seven keywords that are not columns and omits the required job_id and training, so the constructor always raises | any request | pass the entity's own columns | not executed | JobStore.CreateMLJobAsWrittenAlwaysRaises | JobStore.Backend.CreateMLJob |
| src/operator/services.py:82 | `create_training_job` (src/operator/utils.py:24) is called without its `labels` argument, so every create is a PermanentError | any MLJob that passes the gates | pass the labels | not executed | OperatorHandlers.CreateMLJobAsWritten | OperatorHandlers.CreateMLJob |
| src/operator/services.py:107 | the same in the update, after the old training job was deleted | an MLJob whose training changed | pass the labels | not executed | OperatorHandlers.UpdateMLJobAsWritten | OperatorHandlers.UpdateMLJob |
