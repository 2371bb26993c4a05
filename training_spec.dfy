/** The replica specs of a training job (the `spec` of a PyTorchJob-like
    manifest) as far as resource requests go: the validation of the operator
    utilities and the request total of the MLJob handler. */
module TrainingSpec {
  import opened Wrappers
  import opened Quantity

  /** One container; `requests` is resources.requests (empty when absent). */
  datatype Container = Container(requests: map<string, Scalar>)

  /** A value of the spec dict: a replica spec (a dict with optional
      `replicas` and template.spec.containers) or any non-dict value. */
  datatype ReplicaEntry = ReplicaSpec(replicas: Option<int>, containers: seq<Container>) | NotADict

  const CPU := "cpu"
  const MEMORY := "memory"
  const GPU := "nvidia.com/gpu"
  const EPHEMERAL_STORAGE := "ephemeral-storage"

  // ---------------------------------------------------------------- validate_resource_requests

  /** A request passes when it is absent, falsy, or valid. */
  predicate RequestPasses(requests: map<string, Scalar>, key: string, valid: Scalar -> bool) {
    key in requests && Truthy(requests[key]) ==> valid(requests[key])
  }

  predicate ContainerRequestsValid(c: Container) {
    RequestPasses(c.requests, CPU, IsValidCpuValue) &&
    RequestPasses(c.requests, MEMORY, IsValidMemoryValue) &&
    RequestPasses(c.requests, GPU, IsValidGpuValue)
  }

  /** The inner loop over the containers of one replica spec. */
  function ContainersValid(cs: seq<Container>): (ok: bool)
    ensures ok <==> forall j :: 0 <= j < |cs| ==> ContainerRequestsValid(cs[j])
  {
    if cs == [] then true
    else ContainerRequestsValid(cs[0]) && ContainersValid(cs[1..])
  }

  /** validate_resource_requests: false at the first container with a set
      request that is invalid; non-dict entries are skipped. */
  function ValidateResourceRequests(entries: seq<ReplicaEntry>): (ok: bool)
    ensures ok <==> forall i, j :: 0 <= i < |entries| && entries[i].ReplicaSpec? &&
                                   0 <= j < |entries[i].containers| ==>
                                   ContainerRequestsValid(entries[i].containers[j])
  {
    if entries == [] then true
    else
      (match entries[0]
       case NotADict => true
       case ReplicaSpec(_, cs) => ContainersValid(cs)) &&
      ValidateResourceRequests(entries[1..])
  }

  // ---------------------------------------------------------------- calculate_resource_request

  /** A resource total: GPUs, millicores, bytes of memory, bytes of storage. */
  datatype Amounts = Amounts(gpu: int, cpu: int, memory: int, storage: int)

  const Zero := Amounts(0, 0, 0, 0)

  function Plus(a: Amounts, b: Amounts): Amounts {
    Amounts(a.gpu + b.gpu, a.cpu + b.cpu, a.memory + b.memory, a.storage + b.storage)
  }

  function Times(a: Amounts, n: int): Amounts {
    Amounts(a.gpu * n, a.cpu * n, a.memory * n, a.storage * n)
  }

  /** int(value) on a request value. */
  function IntOf(v: Scalar): Option<int> {
    match v
    case Int(i) => Some(i)
    case Str(s) => ParseInt(s)
  }

  /** parse_cpu / parse_memory on a request value: an integer 0 is falsy and
      reads as 0; any other integer has no endswith and raises. */
  function QuantityOf(v: Scalar, parse: string -> Option<int>): Option<int> {
    match v
    case Int(i) => if i == 0 then Some(0) else None
    case Str(s) => parse(s)
  }

  function Get(requests: map<string, Scalar>, key: string, default: Scalar): Scalar {
    if key in requests then requests[key] else default
  }

  /** The requests of one container, or None where the Python code raises. */
  function ContainerAmounts(c: Container): (r: Option<Amounts>)
    ensures r.Some? ==> IntOf(Get(c.requests, GPU, Int(0))) == Some(r.value.gpu)
    ensures r.Some? ==> QuantityOf(Get(c.requests, CPU, Str("0")), ParseCpu) == Some(r.value.cpu)
    ensures r.Some? ==> QuantityOf(Get(c.requests, MEMORY, Str("0")), ParseMemory) == Some(r.value.memory)
    ensures r.Some? ==> QuantityOf(Get(c.requests, EPHEMERAL_STORAGE, Str("0")), ParseMemory) == Some(r.value.storage)
    ensures r.None? <==> IntOf(Get(c.requests, GPU, Int(0))).None? ||
                         QuantityOf(Get(c.requests, CPU, Str("0")), ParseCpu).None? ||
                         QuantityOf(Get(c.requests, MEMORY, Str("0")), ParseMemory).None? ||
                         QuantityOf(Get(c.requests, EPHEMERAL_STORAGE, Str("0")), ParseMemory).None?
  {
    var gpu := IntOf(Get(c.requests, GPU, Int(0)));
    var cpu := QuantityOf(Get(c.requests, CPU, Str("0")), ParseCpu);
    var memory := QuantityOf(Get(c.requests, MEMORY, Str("0")), ParseMemory);
    var storage := QuantityOf(Get(c.requests, EPHEMERAL_STORAGE, Str("0")), ParseMemory);
    if gpu.Some? && cpu.Some? && memory.Some? && storage.Some? then
      Some(Amounts(gpu.value, cpu.value, memory.value, storage.value))
    else None
  }

  function AddSome(acc: Option<Amounts>, extra: Option<Amounts>): Option<Amounts> {
    if acc.Some? && extra.Some? then Some(Plus(acc.value, extra.value)) else None
  }

  /** Left-to-right sum of partial totals; one None (an exception) makes the
      whole sum None. */
  function SumSome(xs: seq<Option<Amounts>>): Option<Amounts> {
    if xs == [] then Some(Zero)
    else AddSome(SumSome(xs[..|xs| - 1]), xs[|xs| - 1])
  }

  function TimesSome(a: Option<Amounts>, n: int): Option<Amounts> {
    if a.Some? then Some(Times(a.value, n)) else None
  }

  /** replicas times the requests of each container, in container order,
      each container read by `read`. The totals are stated for any reader
      and used with ContainerAmounts. */
  function ContainersTotalWith(cs: seq<Container>, replicas: int, read: Container -> Option<Amounts>): Option<Amounts> {
    SumSome(seq(|cs|, j requires 0 <= j < |cs| => TimesSome(read(cs[j]), replicas)))
  }

  function EntryTotalWith(e: ReplicaEntry, read: Container -> Option<Amounts>): Option<Amounts> {
    match e
    case NotADict => Some(Zero)
    case ReplicaSpec(replicas, cs) => ContainersTotalWith(cs, replicas.GetOr(1), read)
  }

  /** The contribution of each entry, in order. */
  function EntryTerms(entries: seq<ReplicaEntry>, read: Container -> Option<Amounts>): (terms: seq<Option<Amounts>>)
    ensures |terms| == |entries|
    ensures forall i :: 0 <= i < |entries| ==> terms[i] == EntryTotalWith(entries[i], read)
  {
    seq(|entries|, i requires 0 <= i < |entries| => EntryTotalWith(entries[i], read))
  }

  /** The total request of a training spec, accumulated entry by entry. */
  function RequestTotalWith(entries: seq<ReplicaEntry>, read: Container -> Option<Amounts>): Option<Amounts> {
    SumSome(EntryTerms(entries, read))
  }

  function RequestTotal(entries: seq<ReplicaEntry>): Option<Amounts> {
    RequestTotalWith(entries, ContainerAmounts)
  }

  /** One step of a left-to-right sum. */
  lemma SumSomeStep(xs: seq<Option<Amounts>>, n: nat)
    requires n < |xs|
    ensures SumSome(xs[..n + 1]) == AddSome(SumSome(xs[..n]), xs[n])
  {
    assert xs[..n + 1][..n] == xs[..n];
  }

  /** Once a term is None, the rest of the sum cannot recover. */
  lemma {:induction false} SumSomeNoneSticks(xs: seq<Option<Amounts>>, n: nat)
    requires n <= |xs| && SumSome(xs[..n]) == None
    ensures SumSome(xs) == None
    decreases |xs| - n
  {
    if n < |xs| {
      SumSomeStep(xs, n);
      SumSomeNoneSticks(xs, n + 1);
    } else {
      assert xs[..n] == xs;
    }
  }

  /** The inner loop: the containers of one replica spec. */
  method ContainersRequest(cs: seq<Container>, replicas: int, read: Container -> Option<Amounts>)
    returns (total: Option<Amounts>)
    ensures total == ContainersTotalWith(cs, replicas, read)
  {
    ghost var terms := seq(|cs|, j requires 0 <= j < |cs| => TimesSome(read(cs[j]), replicas));
    var acc := Zero;
    var j := 0;
    while j < |cs|
      invariant 0 <= j <= |cs|
      invariant SumSome(terms[..j]) == Some(acc)
    {
      SumSomeStep(terms, j);
      var amounts := read(cs[j]);
      if amounts.None? {
        SumSomeNoneSticks(terms, j + 1);
        return None;
      }
      acc := Plus(acc, Times(amounts.value, replicas));
      j := j + 1;
    }
    assert terms[..|cs|] == terms;
    total := Some(acc);
  }

  /** The body of the outer loop: one value of the spec dict. */
  method EntryRequest(e: ReplicaEntry, read: Container -> Option<Amounts>) returns (total: Option<Amounts>)
    ensures total == EntryTotalWith(e, read)
  {
    match e {
      case NotADict =>
        total := Some(Zero);
      case ReplicaSpec(replicasField, cs) =>
        total := ContainersRequest(cs, replicasField.GetOr(1), read);
    }
  }

  /** calculate_resource_request: starts from all zeros and adds, for every
      container of every replica spec, replicas times its requests (replicas
      defaulting to 1). None stands for the exception an unparseable request
      raises. `read` reads one container's requests; the operator's reader
      is ContainerAmounts. */
  method CalculateResourceRequest(entries: seq<ReplicaEntry>, read: Container -> Option<Amounts>)
    returns (total: Option<Amounts>)
    ensures total == RequestTotalWith(entries, read)
  {
    ghost var terms := EntryTerms(entries, read);
    var acc := Zero;
    var i := 0;
    while i < |entries|
      invariant 0 <= i <= |entries|
      invariant SumSome(terms[..i]) == Some(acc)
    {
      var entryTotal := EntryRequest(entries[i], read);
      SumSomeStep(terms, i);
      if entryTotal.None? {
        SumSomeNoneSticks(terms, i + 1);
        return None;
      }
      acc := Plus(acc, entryTotal.value);
      i := i + 1;
    }
    assert terms[..|entries|] == terms;
    total := Some(acc);
  }

  /** The sum splits over a concatenation. */
  lemma {:induction false} SumSomeAppend(a: seq<Option<Amounts>>, b: seq<Option<Amounts>>)
    ensures SumSome(a + b) == AddSome(SumSome(a), SumSome(b))
    decreases |b|
  {
    if b == [] {
      assert a + b == a;
    } else {
      var b' := b[..|b| - 1];
      assert (a + b)[..|a + b| - 1] == a + b';
      assert (a + b)[|a + b| - 1] == b[|b| - 1];
      SumSomeAppend(a, b');
    }
  }

  /** The terms of a concatenation are the terms of its parts. */
  lemma EntryTermsAppend(a: seq<ReplicaEntry>, b: seq<ReplicaEntry>, read: Container -> Option<Amounts>)
    ensures EntryTerms(a + b, read) == EntryTerms(a, read) + EntryTerms(b, read)
  {
  }

  /** A zero term anywhere in a sum changes nothing. */
  lemma {:induction false} SumSomeZeroIgnored(x: seq<Option<Amounts>>, y: seq<Option<Amounts>>)
    ensures SumSome(x + [Some(Zero)] + y) == SumSome(x + y)
    decreases |y|
  {
    if y == [] {
      assert x + [Some(Zero)] + y == x + [Some(Zero)];
      assert (x + [Some(Zero)])[..|x|] == x;
      assert x + y == x;
      if SumSome(x).Some? {
        assert Plus(SumSome(x).value, Zero) == SumSome(x).value;
      }
    } else {
      var y' := y[..|y| - 1];
      var last := y[|y| - 1];
      assert x + [Some(Zero)] + y == (x + [Some(Zero)] + y') + [last];
      assert ((x + [Some(Zero)] + y') + [last])[..|x| + 1 + |y'|] == x + [Some(Zero)] + y';
      assert x + y == (x + y') + [last];
      assert ((x + y') + [last])[..|x| + |y'|] == x + y';
      SumSomeZeroIgnored(x, y');
    }
  }

  /** Entries that are not dicts contribute nothing. */
  lemma NonDictIgnored(a: seq<ReplicaEntry>, b: seq<ReplicaEntry>, read: Container -> Option<Amounts>)
    ensures RequestTotalWith(a + [NotADict] + b, read) == RequestTotalWith(a + b, read)
  {
    var ta, tb := EntryTerms(a, read), EntryTerms(b, read);
    assert EntryTerms([NotADict], read) == [Some(Zero)];
    EntryTermsAppend(a, [NotADict], read);
    EntryTermsAppend(a + [NotADict], b, read);
    EntryTermsAppend(a, b, read);
    SumSomeZeroIgnored(ta, tb);
  }

  /** A sum of one term is that term. */
  lemma SumSomeSingle(x: Option<Amounts>)
    ensures SumSome([x]) == x
  {
    assert [x][..0] == [];
    if x.Some? {
      assert Plus(Zero, x.value) == x.value;
    }
  }

  /** A replica spec without `replicas` counts each container once, and one
      with r replicas counts each container r times. */
  lemma SingleContainerScales(c: Container, r: Option<int>, read: Container -> Option<Amounts>)
    ensures RequestTotalWith([ReplicaSpec(r, [c])], read) == TimesSome(read(c), r.GetOr(1))
  {
    var term := TimesSome(read(c), r.GetOr(1));
    var inner := seq(1, j requires 0 <= j < 1 => TimesSome(read([c][j]), r.GetOr(1)));
    assert inner == [term];
    SumSomeSingle(term);
    assert EntryTerms([ReplicaSpec(r, [c])], read) == [term];
  }
}
