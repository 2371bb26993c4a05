/** Project quotas and usage of the MLJob operator: quota validation, the
    quota-violation test, the project lifecycle handlers and the usage
    bookkeeping that MLJob creation and deletion perform. CPU amounts are
    millicores and memory/storage amounts bytes (see Quantity). */
module Quota {
  import opened Wrappers
  import opened Kopf
  import opened Quantity
  import Retry

  /** A {limit, request} sub-dict of a quota; both absent is the empty,
      falsy dict. */
  datatype Bound<T> = Bound(limit: Option<T>, request: Option<T>) {
    predicate IsEmpty() { limit.None? && request.None? }
  }

  /** spec.quota of a Project. A field is None when its key is absent. */
  datatype QuotaSpec = QuotaSpec(
    gpu: Option<Bound<int>>,
    cpu: Option<Bound<string>>,
    memory: Option<Bound<string>>,
    storage: Option<Bound<string>>,
    maxJobs: Option<int>)
  {
    predicate IsEmpty() {
      gpu.None? && cpu.None? && memory.None? && storage.None? && maxJobs.None?
    }
  }

  const NoQuota := QuotaSpec(None, None, None, None, None)

  /** status.usage of a Project (and the request dict of a job), a field per
      key that may be absent. */
  datatype Usage = Usage(
    gpu: Option<int>,
    cpu: Option<string>,
    memory: Option<string>,
    storage: Option<string>,
    currentJobs: Option<int>)

  /** The outcome of validate_quota: it returns, or raises ValueError. */
  datatype Check = Pass | Fail(message: string)

  const UNPARSEABLE := "could not convert string to float"

  function ParseOr(parse: string -> Option<int>, s: Option<string>): Option<int> {
    parse(s.GetOr("0"))
  }

  /** One dimension of validate_quota for string quantities: skipped when
      the sub-dict is absent or empty, else request (default '0') must not
      exceed limit (default '0'). */
  function CheckQuantity(b: Option<Bound<string>>, parse: string -> Option<int>, message: string): Check {
    if b.None? || b.value.IsEmpty() then Pass
    else
      var limit := ParseOr(parse, b.value.limit);
      var request := ParseOr(parse, b.value.request);
      if limit.None? || request.None? then Fail(UNPARSEABLE)
      else if request.value > limit.value then Fail(message)
      else Pass
  }

  /** validate_quota: gpu, cpu, memory and storage in that order. */
  function ValidateQuota(q: QuotaSpec): (c: Check)
    ensures q.IsEmpty() ==> c == Pass
  {
    if q.IsEmpty() then Pass
    else if q.gpu.Some? && !q.gpu.value.IsEmpty() &&
            q.gpu.value.request.GetOr(0) > q.gpu.value.limit.GetOr(0)
    then Fail("GPU request cannot exceed limit")
    else
      var cpu := CheckQuantity(q.cpu, ParseCpu, "CPU request cannot exceed limit");
      if cpu.Fail? then cpu
      else
        var memory := CheckQuantity(q.memory, ParseMemory, "Memory request cannot exceed limit");
        if memory.Fail? then memory
        else CheckQuantity(q.storage, ParseMemory, "Storage request cannot exceed limit")
  }

  /** A dimension whose request and limit both parse and whose request is
      strictly above the limit. */
  predicate RequestOverLimit(b: Option<Bound<string>>, parse: string -> Option<int>) {
    b.Some? && !b.value.IsEmpty() &&
    ParseOr(parse, b.value.limit).Some? && ParseOr(parse, b.value.request).Some? &&
    ParseOr(parse, b.value.request).value > ParseOr(parse, b.value.limit).value
  }

  predicate Parses(b: Option<Bound<string>>, parse: string -> Option<int>) {
    b.None? || b.value.IsEmpty() ||
    (ParseOr(parse, b.value.limit).Some? && ParseOr(parse, b.value.request).Some?)
  }

  /** For a quota whose quantities parse, validate_quota passes exactly when
      no dimension requests more than its limit. */
  lemma ValidateQuotaMeaning(q: QuotaSpec)
    requires Parses(q.cpu, ParseCpu) && Parses(q.memory, ParseMemory) && Parses(q.storage, ParseMemory)
    ensures ValidateQuota(q) == Pass <==>
      !(q.gpu.Some? && !q.gpu.value.IsEmpty() && q.gpu.value.request.GetOr(0) > q.gpu.value.limit.GetOr(0)) &&
      !RequestOverLimit(q.cpu, ParseCpu) &&
      !RequestOverLimit(q.memory, ParseMemory) &&
      !RequestOverLimit(q.storage, ParseMemory)
  {
    CheckQuantityMeaning(q.cpu, ParseCpu, "CPU request cannot exceed limit");
    CheckQuantityMeaning(q.memory, ParseMemory, "Memory request cannot exceed limit");
    CheckQuantityMeaning(q.storage, ParseMemory, "Storage request cannot exceed limit");
  }

  lemma CheckQuantityMeaning(b: Option<Bound<string>>, parse: string -> Option<int>, message: string)
    requires Parses(b, parse)
    ensures (CheckQuantity(b, parse, message) == Pass) == !RequestOverLimit(b, parse)
  {
  }

  // ---------------------------------------------------------------- violates_quota

  /** One string dimension of violates_quota: checked only when the key is
      in both dicts; None is the ValueError of an unparseable amount. */
  function QuantityOver(used: Option<string>, b: Option<Bound<string>>, parse: string -> Option<int>): Option<bool> {
    if b.None? || used.None? then Some(false)
    else
      var u := parse(used.value);
      var limit := ParseOr(parse, b.value.limit);
      if u.None? || limit.None? then None
      else Some(u.value > limit.value)
  }

  /** violates_quota: True at the first dimension (gpu, cpu, memory,
      storage, job count) whose usage is strictly above its limit. Amounts
      are read with the codec's readers. */
  function ViolatesQuotaWith(usage: Usage, q: QuotaSpec, codec: Codec): (r: Option<bool>)
    ensures q.IsEmpty() ==> r == Some(false)
  {
    if q.IsEmpty() then Some(false)
    else if q.gpu.Some? && usage.gpu.Some? && usage.gpu.value > q.gpu.value.limit.GetOr(0) then Some(true)
    else
      var cpu := QuantityOver(usage.cpu, q.cpu, codec.readCpu);
      if cpu != Some(false) then cpu
      else
        var memory := QuantityOver(usage.memory, q.memory, codec.readMemory);
        if memory != Some(false) then memory
        else
          var storage := QuantityOver(usage.storage, q.storage, codec.readMemory);
          if storage != Some(false) then storage
          else Some(q.maxJobs.Some? && usage.currentJobs.Some? && usage.currentJobs.value > q.maxJobs.value)
  }

  function ViolatesQuota(usage: Usage, q: QuotaSpec): Option<bool> {
    ViolatesQuotaWith(usage, q, OperatorCodec)
  }

  /** Every amount that violates_quota would parse does parse. */
  predicate UsageParses(usage: Usage, q: QuotaSpec, codec: Codec) {
    QuantityOver(usage.cpu, q.cpu, codec.readCpu).Some? &&
    QuantityOver(usage.memory, q.memory, codec.readMemory).Some? &&
    QuantityOver(usage.storage, q.storage, codec.readMemory).Some?
  }

  /** Reference reading of a violation: some dimension present in both the
      usage and the quota has usage strictly greater than its limit. */
  predicate ExceedsSomeLimit(usage: Usage, q: QuotaSpec, codec: Codec)
    requires UsageParses(usage, q, codec)
  {
    (q.gpu.Some? && usage.gpu.Some? && usage.gpu.value > q.gpu.value.limit.GetOr(0)) ||
    QuantityOver(usage.cpu, q.cpu, codec.readCpu) == Some(true) ||
    QuantityOver(usage.memory, q.memory, codec.readMemory) == Some(true) ||
    QuantityOver(usage.storage, q.storage, codec.readMemory) == Some(true) ||
    (q.maxJobs.Some? && usage.currentJobs.Some? && usage.currentJobs.value > q.maxJobs.value)
  }

  lemma ViolatesQuotaMeaning(usage: Usage, q: QuotaSpec, codec: Codec)
    requires UsageParses(usage, q, codec)
    ensures ViolatesQuotaWith(usage, q, codec) == Some(!q.IsEmpty() && ExceedsSomeLimit(usage, q, codec))
  {
  }

  /** Usage equal to every limit is not a violation: the test is strict. */
  lemma UsageAtLimitAllowed(gpu: int, millicores: int, bytes: int, jobs: int)
    ensures ViolatesQuota(
      Usage(Some(gpu), Some(ShowCpu(millicores)), Some(ShowMemory(bytes)), Some(ShowMemory(bytes)), Some(jobs)),
      QuotaSpec(Some(Bound(Some(gpu), None)), Some(Bound(Some(ShowCpu(millicores)), None)),
                Some(Bound(Some(ShowMemory(bytes)), None)), Some(Bound(Some(ShowMemory(bytes)), None)),
                Some(jobs))) == Some(false)
  {
    ParseShowCpu(millicores);
    ParseShowMemory(bytes);
  }

  /** One more job than maxJobs is a violation, whatever the other amounts. */
  lemma OneJobOverIsViolation(usage: Usage, q: QuotaSpec, codec: Codec)
    requires UsageParses(usage, q, codec)
    requires q.maxJobs.Some? && usage.currentJobs == Some(q.maxJobs.value + 1)
    ensures ViolatesQuotaWith(usage, q, codec) == Some(true)
  {
  }

  // ---------------------------------------------------------------- project handlers

  datatype ProjectStatus = ProjectStatus(phase: Option<string>, usage: Option<Usage>, conditions: seq<Condition>)

  const InitialUsage := Usage(Some(0), Some("0"), Some("0"), Some("0"), Some(0))

  /** create_project: validate spec.quota, then report an Active project with
      zero usage and a Created condition. */
  function CreateProject(quota: QuotaSpec): (r: Handled<ProjectStatus>)
    ensures r.Done? <==> ValidateQuota(quota) == Pass
    ensures r.Done? ==> r.status.phase == Some("Active") && r.status.usage == Some(InitialUsage)
    ensures r.PermanentError? ==> r.message == ValidateQuota(quota).message
    ensures !r.TemporaryError?
  {
    match ValidateQuota(quota)
    case Fail(message) => PermanentError(message)
    case Pass =>
      Done(ProjectStatus(Some("Active"), Some(InitialUsage),
        [Condition("Created", "True", "ProjectCreated", "Project was created successfully")]))
  }

  /** Limits a freshly created project cannot already be over. */
  predicate NonNegativeLimits(q: QuotaSpec) {
    (q.gpu.Some? ==> q.gpu.value.limit.GetOr(0) >= 0) &&
    (q.cpu.Some? ==> ParseOr(ParseCpu, q.cpu.value.limit).Some? && ParseOr(ParseCpu, q.cpu.value.limit).value >= 0) &&
    (q.memory.Some? ==> ParseOr(ParseMemory, q.memory.value.limit).Some? && ParseOr(ParseMemory, q.memory.value.limit).value >= 0) &&
    (q.storage.Some? ==> ParseOr(ParseMemory, q.storage.value.limit).Some? && ParseOr(ParseMemory, q.storage.value.limit).value >= 0) &&
    (q.maxJobs.Some? ==> q.maxJobs.value >= 0)
  }

  /** The zero usage of a new project violates no quota with non-negative
      limits. */
  lemma InitialUsageWithinQuota(q: QuotaSpec)
    requires NonNegativeLimits(q)
    ensures ViolatesQuota(InitialUsage, q) == Some(false)
  {
    ParseZero();
    ZeroNotOver(q.cpu, ParseCpu);
    ZeroNotOver(q.memory, ParseMemory);
    ZeroNotOver(q.storage, ParseMemory);
  }

  lemma ZeroNotOver(b: Option<Bound<string>>, parse: string -> Option<int>)
    requires parse("0") == Some(0)
    requires b.Some? ==> ParseOr(parse, b.value.limit).Some? && ParseOr(parse, b.value.limit).value >= 0
    ensures QuantityOver(Some("0"), b, parse) == Some(false)
  {
  }

  /** update_project: validate the new quota, then refuse it when the usage
      recorded in the old object already violates it. */
  function UpdateProject(oldUsage: Usage, newQuota: QuotaSpec): (r: Handled<ProjectStatus>)
    ensures r.Done? <==> ValidateQuota(newQuota) == Pass && ViolatesQuota(oldUsage, newQuota) == Some(false)
    ensures ValidateQuota(newQuota) == Pass && ViolatesQuota(oldUsage, newQuota) == Some(true) ==>
              r == PermanentError("New quota would violate current resource usage")
    ensures !r.TemporaryError?
  {
    match ValidateQuota(newQuota)
    case Fail(message) => PermanentError(message)
    case Pass =>
      match ViolatesQuota(oldUsage, newQuota)
      case None => PermanentError(UNPARSEABLE)
      case Some(true) => PermanentError("New quota would violate current resource usage")
      case Some(false) =>
        Done(ProjectStatus(None, None,
          [Condition("Updated", "True", "ProjectUpdated", "Project was updated successfully")]))
  }

  /** A job is active in phase Created or Running; `phase` is the job's
      status.phase, None when absent. */
  predicate ActivePhase(phase: Option<string>) {
    phase == Some("Created") || phase == Some("Running")
  }

  /** The `any(...)` over the listed jobs. */
  function AnyActive(phases: seq<Option<string>>): (r: bool)
    ensures r <==> exists i :: 0 <= i < |phases| && ActivePhase(phases[i])
  {
    if phases == [] then false else ActivePhase(phases[0]) || AnyActive(phases[1..])
  }

  /** The undecorated body of has_active_jobs on one listing: a 404 means no
      jobs, any other ApiException propagates. */
  function HasActiveJobsOnce(listing: Call<seq<Option<string>>>): Call<bool> {
    match listing
    case Ok(phases) => Ok(AnyActive(phases))
    case ApiError(status) => if status == NOT_FOUND then Ok(false) else ApiError(status)
    case Raised(kind, message) => Raised(kind, message)
  }

  /** has_active_jobs with its retry decorator ('get': 3 attempts, delay 1);
      listings[k] is the k-th list call and `b` how the decorator's call
      binds (as written it has no `logger` parameter). */
  function HasActiveJobs(listings: seq<Call<seq<Option<string>>>>, b: Retry.Binding): (r: Call<bool>)
    requires |listings| >= Retry.HandlersRetryConfig("get").maxRetries
    ensures b != Retry.Binds ==> r == Raised(Other, Retry.BindingError("has_active_jobs", b))
  {
    var cfg := Retry.HandlersRetryConfig("get");
    var attempts := seq(|listings|, k requires 0 <= k < |listings| => HasActiveJobsOnce(listings[k]));
    Retry.WrapperBounds("has_active_jobs", b, attempts, cfg.maxRetries, cfg.delay);
    Retry.RetrySpec(Retry.Bound("has_active_jobs", b, attempts), cfg.maxRetries, cfg.delay).outcome
  }

  /** delete_project: refused while a Created or Running job is listed;
      otherwise the project is Terminated. Any error is permanent. */
  function DeleteProject(listings: seq<Call<seq<Option<string>>>>, b: Retry.Binding): (r: Handled<ProjectStatus>)
    requires |listings| >= Retry.HandlersRetryConfig("get").maxRetries
    ensures r.Done? <==> HasActiveJobs(listings, b) == Ok(false)
    ensures HasActiveJobs(listings, b) == Ok(true) ==>
              r == PermanentError("Cannot delete project with active jobs")
    ensures r.Done? ==> r.status.phase == Some("Terminated")
  {
    match HasActiveJobs(listings, b)
    case Ok(active) =>
      if active then PermanentError("Cannot delete project with active jobs")
      else Done(ProjectStatus(Some("Terminated"), None,
             [Condition("Deleted", "True", "ProjectDeleted", "Project was deleted successfully")]))
    case _ => PermanentError(HasActiveJobs(listings, b).Message())
  }

  /** As written, no project is ever deleted: has_active_jobs raises its
      TypeError on each of its three attempts, and delete_project reports it
      as a PermanentError whatever the listings would have shown. */
  lemma DeleteProjectAsWritten(listings: seq<Call<seq<Option<string>>>>)
    requires |listings| >= 3
    ensures HasActiveJobs(listings, Retry.NoLoggerParameter) ==
            Raised(Other, Retry.BindingError("has_active_jobs", Retry.NoLoggerParameter))
    ensures DeleteProject(listings, Retry.NoLoggerParameter) ==
            PermanentError(Retry.BindingError("has_active_jobs", Retry.NoLoggerParameter))
  {
    var attempts := seq(|listings|, k requires 0 <= k < |listings| => HasActiveJobsOnce(listings[k]));
    Retry.UnboundCallExhausts("has_active_jobs", Retry.NoLoggerParameter, attempts, 3, 1);
  }

  /** Once the call binds, a first listing that answers 404 counts as "no
      active jobs", and the project is deleted. */
  lemma DeleteProjectAfterNotFound(listings: seq<Call<seq<Option<string>>>>)
    requires |listings| >= 3 && listings[0] == ApiError(NOT_FOUND)
    ensures DeleteProject(listings, Retry.Binds).Done?
  {
    var attempts := seq(|listings|, k requires 0 <= k < |listings| => HasActiveJobsOnce(listings[k]));
    Retry.FirstDecisiveAttempt(attempts, 3, 1, 0);
  }

  /** Once the call binds, a first listing that shows a Running job blocks
      the delete. */
  lemma DeleteProjectBlockedByRunningJob(listings: seq<Call<seq<Option<string>>>>, phases: seq<Option<string>>, i: nat)
    requires |listings| >= 3 && listings[0] == Ok(phases)
    requires i < |phases| && phases[i] == Some("Running")
    ensures DeleteProject(listings, Retry.Binds) == PermanentError("Cannot delete project with active jobs")
  {
    var attempts := seq(|listings|, k requires 0 <= k < |listings| => HasActiveJobsOnce(listings[k]));
    assert ActivePhase(phases[i]);
    Retry.FirstDecisiveAttempt(attempts, 3, 1, 0);
  }

  // ---------------------------------------------------------------- usage bookkeeping

  /** The usage amounts as numbers; absent keys read as 0. */
  datatype Totals = Totals(gpu: int, cpu: int, memory: int, storage: int, jobs: int)

  /** How quantities are read from and written to a usage dict: the
      operator reads with parse_cpu/parse_memory and writes the sums back as
      text. The bookkeeping is stated for any codec that reads back what it
      writes, and OperatorCodec is one (OperatorReadsBack). */
  datatype Codec = Codec(
    readCpu: string -> Option<int>,
    readMemory: string -> Option<int>,
    showCpu: int -> string,
    showMemory: int -> string)

  const OperatorCodec := Codec(ParseCpu, ParseMemory, ShowCpu, ShowMemory)

  /** The amounts of a usage dict; None when one of them does not parse. */
  function TotalsWith(u: Usage, codec: Codec): Option<Totals> {
    var c := ParseOr(codec.readCpu, u.cpu);
    var m := ParseOr(codec.readMemory, u.memory);
    var st := ParseOr(codec.readMemory, u.storage);
    if c.None? || m.None? || st.None? then None
    else Some(Totals(u.gpu.GetOr(0), c.value, m.value, st.value, u.currentJobs.GetOr(0)))
  }

  function TotalsOf(u: Usage): Option<Totals> {
    TotalsWith(u, OperatorCodec)
  }

  /** The usage dict that writes totals back. */
  function UsageOf(t: Totals, codec: Codec): Usage {
    Usage(Some(t.gpu), Some(codec.showCpu(t.cpu)), Some(codec.showMemory(t.memory)),
          Some(codec.showMemory(t.storage)), Some(t.jobs))
  }

  /** A codec that reads back every amount it writes. */
  ghost predicate ReadsBack(codec: Codec) {
    (forall m :: codec.readCpu(codec.showCpu(m)) == Some(m)) &&
    (forall b :: codec.readMemory(codec.showMemory(b)) == Some(b))
  }

  /** ParseCpu and ParseMemory read back ShowCpu and ShowMemory exactly. */
  lemma OperatorReadsBack()
    ensures ReadsBack(OperatorCodec)
  {
    forall m ensures ParseCpu(ShowCpu(m)) == Some(m) { ParseShowCpu(m); }
    forall b ensures ParseMemory(ShowMemory(b)) == Some(b) { ParseShowMemory(b); }
  }

  lemma TotalsOfUsageOf(t: Totals, codec: Codec)
    requires ReadsBack(codec)
    ensures TotalsWith(UsageOf(t, codec), codec) == Some(t)
  {
  }

  /** update_project_usage's new status.usage: each amount plus its delta,
      currentJobs plus jobs_delta. None is the ValueError of an unparseable
      amount. */
  function NewUsageWith(current: Usage, delta: Usage, jobsDelta: int, codec: Codec): Option<Usage> {
    var c := TotalsWith(current, codec);
    var d := TotalsWith(delta, codec);
    if c.None? || d.None? then None
    else Some(UsageOf(Totals(c.value.gpu + d.value.gpu, c.value.cpu + d.value.cpu,
                             c.value.memory + d.value.memory, c.value.storage + d.value.storage,
                             c.value.jobs + jobsDelta), codec))
  }

  function NewUsage(current: Usage, delta: Usage, jobsDelta: int): Option<Usage> {
    NewUsageWith(current, delta, jobsDelta, OperatorCodec)
  }

  /** The written usage reads back as the exact sum of the old usage and the
      delta, in every dimension. */
  lemma NewUsageAdds(current: Usage, delta: Usage, jobsDelta: int, codec: Codec)
    requires ReadsBack(codec)
    requires TotalsWith(current, codec).Some? && TotalsWith(delta, codec).Some?
    ensures NewUsageWith(current, delta, jobsDelta, codec).Some?
    ensures TotalsWith(NewUsageWith(current, delta, jobsDelta, codec).value, codec) == Some(Totals(
      TotalsWith(current, codec).value.gpu + TotalsWith(delta, codec).value.gpu,
      TotalsWith(current, codec).value.cpu + TotalsWith(delta, codec).value.cpu,
      TotalsWith(current, codec).value.memory + TotalsWith(delta, codec).value.memory,
      TotalsWith(current, codec).value.storage + TotalsWith(delta, codec).value.storage,
      TotalsWith(current, codec).value.jobs + jobsDelta))
  {
    var c, d := TotalsWith(current, codec).value, TotalsWith(delta, codec).value;
    var t := Totals(c.gpu + d.gpu, c.cpu + d.cpu, c.memory + d.memory, c.storage + d.storage, c.jobs + jobsDelta);
    assert NewUsageWith(current, delta, jobsDelta, codec) == Some(UsageOf(t, codec));
    TotalsOfUsageOf(t, codec);
  }

  /** As written, delete_mljob releases a job by calling update_project_usage
      with the job's resourceUsage and -1: the job count goes back, but the
      resources are added a second time. */
  lemma CommitThenReleaseDoubleCounts(current: Usage, request: Usage, codec: Codec)
    requires ReadsBack(codec)
    requires TotalsWith(current, codec).Some? && TotalsWith(request, codec).Some?
    ensures NewUsageWith(current, request, 1, codec).Some?
    ensures NewUsageWith(NewUsageWith(current, request, 1, codec).value, request, -1, codec).Some?
    ensures TotalsWith(NewUsageWith(NewUsageWith(current, request, 1, codec).value, request, -1, codec).value, codec)
            == Some(Totals(
      TotalsWith(current, codec).value.gpu + 2 * TotalsWith(request, codec).value.gpu,
      TotalsWith(current, codec).value.cpu + 2 * TotalsWith(request, codec).value.cpu,
      TotalsWith(current, codec).value.memory + 2 * TotalsWith(request, codec).value.memory,
      TotalsWith(current, codec).value.storage + 2 * TotalsWith(request, codec).value.storage,
      TotalsWith(current, codec).value.jobs))
  {
    NewUsageAdds(current, request, 1, codec);
    NewUsageAdds(NewUsageWith(current, request, 1, codec).value, request, -1, codec);
  }

  /** The release delete_mljob evidently intends: subtract the job's
      resourceUsage and one job. */
  function ReleaseUsageWith(current: Usage, released: Usage, codec: Codec): Option<Usage> {
    var c := TotalsWith(current, codec);
    var d := TotalsWith(released, codec);
    if c.None? || d.None? then None
    else Some(UsageOf(Totals(c.value.gpu - d.value.gpu, c.value.cpu - d.value.cpu,
                             c.value.memory - d.value.memory, c.value.storage - d.value.storage,
                             c.value.jobs - 1), codec))
  }

  function ReleaseUsage(current: Usage, released: Usage): Option<Usage> {
    ReleaseUsageWith(current, released, OperatorCodec)
  }

  /** With the intended release, committing a job and then releasing it
      gives back the usage it started from. */
  lemma CommitThenReleaseRestores(current: Usage, request: Usage, codec: Codec)
    requires ReadsBack(codec)
    requires TotalsWith(current, codec).Some? && TotalsWith(request, codec).Some?
    ensures NewUsageWith(current, request, 1, codec).Some?
    ensures ReleaseUsageWith(NewUsageWith(current, request, 1, codec).value, request, codec).Some?
    ensures TotalsWith(ReleaseUsageWith(NewUsageWith(current, request, 1, codec).value, request, codec).value, codec)
            == TotalsWith(current, codec)
  {
    NewUsageAdds(current, request, 1, codec);
    var d := TotalsWith(request, codec).value;
    var t := TotalsWith(NewUsageWith(current, request, 1, codec).value, codec).value;
    TotalsOfUsageOf(Totals(t.gpu - d.gpu, t.cpu - d.cpu, t.memory - d.memory, t.storage - d.storage, t.jobs - 1),
                    codec);
  }

  // ---------------------------------------------------------------- admission

  /** {**current_usage, **resource_request}: every key the request has
      replaces the current value, every other key keeps it. */
  function MergeUsage(current: Usage, request: Usage): (merged: Usage)
    ensures request.gpu.Some? ==> merged.gpu == request.gpu
    ensures request.cpu.Some? ==> merged.cpu == request.cpu
    ensures request.memory.Some? ==> merged.memory == request.memory
    ensures request.storage.Some? ==> merged.storage == request.storage
    ensures request.currentJobs.Some? ==> merged.currentJobs == request.currentJobs
    ensures request.gpu.None? ==> merged.gpu == current.gpu
    ensures request.cpu.None? ==> merged.cpu == current.cpu
    ensures request.memory.None? ==> merged.memory == current.memory
    ensures request.storage.None? ==> merged.storage == current.storage
    ensures request.currentJobs.None? ==> merged.currentJobs == current.currentJobs
  {
    Usage(
      if request.gpu.Some? then request.gpu else current.gpu,
      if request.cpu.Some? then request.cpu else current.cpu,
      if request.memory.Some? then request.memory else current.memory,
      if request.storage.Some? then request.storage else current.storage,
      if request.currentJobs.Some? then request.currentJobs else current.currentJobs)
  }

  /** The dict calculate_resource_request returns: all four resource keys,
      no currentJobs. */
  function RequestUsage(gpu: int, millicores: int, bytes: int, storageBytes: int): Usage {
    Usage(Some(gpu), Some(ShowCpu(millicores)), Some(ShowMemory(bytes)), Some(ShowMemory(storageBytes)), None)
  }

  /** Admission tests the request alone against each limit: the project's
      current resource usage plays no part, only its job count does. */
  lemma AdmissionIgnoresCurrentUsage(current1: Usage, current2: Usage, request: Usage, q: QuotaSpec)
    requires request.gpu.Some? && request.cpu.Some? && request.memory.Some? && request.storage.Some?
    requires current1.currentJobs == current2.currentJobs
    ensures ViolatesQuota(MergeUsage(current1, request), q) == ViolatesQuota(MergeUsage(current2, request), q)
  {
    assert MergeUsage(current1, request) == MergeUsage(current2, request);
  }

  /** So a project already at its CPU limit still admits a job whose own
      request fits the limit. */
  lemma AdmissionAtFullCpu(limit: nat)
    ensures ViolatesQuota(
      MergeUsage(Usage(Some(0), Some(ShowCpu(limit)), None, None, Some(0)), RequestUsage(0, limit, 0, 0)),
      QuotaSpec(None, Some(Bound(Some(ShowCpu(limit)), None)), None, None, None)) == Some(false)
  {
    ParseShowCpu(limit);
  }

  /** As written, a project already running maxJobs jobs admits one more:
      the merged dict carries the current job count, not the count with the
      new job. */
  lemma AdmissionAtMaxJobs(n: int)
    ensures ViolatesQuota(
      MergeUsage(Usage(None, None, None, None, Some(n)), RequestUsage(0, 0, 0, 0)),
      QuotaSpec(None, None, None, None, Some(n))) == Some(false)
  {
  }

  /** The admission test create_mljob evidently intends: the usage the job
      would commit (current usage plus the request, one more job) must
      violate no limit. None is the ValueError of an unparseable amount. */
  function AdmitWith(current: Usage, request: Usage, q: QuotaSpec, codec: Codec): Option<bool> {
    var committed := NewUsageWith(current, request, 1, codec);
    if committed.None? then None
    else
      var violation := ViolatesQuotaWith(committed.value, q, codec);
      if violation.None? then None else Some(!violation.value)
  }

  function Admit(current: Usage, request: Usage, q: QuotaSpec): Option<bool> {
    AdmitWith(current, request, q, OperatorCodec)
  }

  /** The limits a committed usage is compared with all parse. */
  predicate LimitsParse(q: QuotaSpec, codec: Codec) {
    (q.cpu.Some? ==> ParseOr(codec.readCpu, q.cpu.value.limit).Some?) &&
    (q.memory.Some? ==> ParseOr(codec.readMemory, q.memory.value.limit).Some?) &&
    (q.storage.Some? ==> ParseOr(codec.readMemory, q.storage.value.limit).Some?)
  }

  /** With the intended test, a job is admitted exactly when the totals it
      would commit stay within every limit. */
  lemma AdmitMeaning(current: Usage, request: Usage, q: QuotaSpec, codec: Codec)
    requires ReadsBack(codec) && LimitsParse(q, codec)
    requires TotalsWith(current, codec).Some? && TotalsWith(request, codec).Some?
    ensures AdmitWith(current, request, q, codec).Some?
    ensures AdmitWith(current, request, q, codec).value <==>
      var c, d := TotalsWith(current, codec).value, TotalsWith(request, codec).value;
      q.IsEmpty() ||
      ((q.gpu.Some? ==> c.gpu + d.gpu <= q.gpu.value.limit.GetOr(0)) &&
       (q.cpu.Some? ==> c.cpu + d.cpu <= ParseOr(codec.readCpu, q.cpu.value.limit).value) &&
       (q.memory.Some? ==> c.memory + d.memory <= ParseOr(codec.readMemory, q.memory.value.limit).value) &&
       (q.storage.Some? ==> c.storage + d.storage <= ParseOr(codec.readMemory, q.storage.value.limit).value) &&
       (q.maxJobs.Some? ==> c.jobs + 1 <= q.maxJobs.value))
  {
    NewUsageAdds(current, request, 1, codec);
    var u := NewUsageWith(current, request, 1, codec).value;
    assert UsageParses(u, q, codec);
    ViolatesQuotaMeaning(u, q, codec);
  }

  /** So a project at its CPU limit admits no job that asks for CPU. */
  lemma AdmitAtFullCpuRejects(current: Usage, request: Usage, q: QuotaSpec, codec: Codec)
    requires ReadsBack(codec) && LimitsParse(q, codec)
    requires TotalsWith(current, codec).Some? && TotalsWith(request, codec).Some?
    requires q.cpu.Some? && TotalsWith(current, codec).value.cpu == ParseOr(codec.readCpu, q.cpu.value.limit).value
    requires TotalsWith(request, codec).value.cpu > 0
    ensures AdmitWith(current, request, q, codec) == Some(false)
  {
    AdmitMeaning(current, request, q, codec);
  }

  /** And a project running maxJobs jobs admits no further job. */
  lemma AdmitAtMaxJobsRejects(current: Usage, request: Usage, q: QuotaSpec, codec: Codec)
    requires ReadsBack(codec) && LimitsParse(q, codec)
    requires TotalsWith(current, codec).Some? && TotalsWith(request, codec).Some?
    requires q.maxJobs.Some? && TotalsWith(current, codec).value.jobs == q.maxJobs.value
    ensures AdmitWith(current, request, q, codec) == Some(false)
  {
    AdmitMeaning(current, request, q, codec);
  }
}
