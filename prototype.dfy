/** The first, single-file operator: an MLJob of type pytorch becomes a
    PyTorchJob with one Worker group. The cluster's answers are
    parameters; `submit` answers the create of a given manifest. kopf's
    PermanentError is a Raised call of kind Permanent. */
module Prototype {
  import opened Wrappers
  import Text

  const PYTORCH := "pytorch"
  const DEFAULT_FRAMEWORK_VERSION := "1.13.1"
  const DEFAULT_WORKER_REPLICAS := 1
  const IMAGE_REQUIRED := "Image must be specified in the job spec"
  const UNSUPPORTED := "Unsupported job type: "
  const CREATE_FAILED := "Failed to create training job: "
  const DELETE_FAILED := "Failed to delete training job: "
  const UPDATE_FAILED := "Failed to update training job: "

  /** The keys of an MLJob spec the prototype reads; None when absent. */
  datatype MLJobSpec = MLJobSpec(
    jobType: Option<string>,
    frameworkVersion: Option<string>,
    workerReplicas: Option<int>,
    image: Option<string>,
    command: Option<seq<string>>)

  datatype ContainerSpec = ContainerSpec(name: string, image: string, command: seq<string>)

  /** A PyTorchJob manifest with its single Worker replica group. */
  datatype Manifest = Manifest(
    apiVersion: string,
    kind: string,
    name: string,
    namespace: string,
    workerReplicas: int,
    restartPolicy: string,
    containers: seq<ContainerSpec>)

  /** The dict a handler returns: {"status": ...}. */
  datatype Reply = Reply(status: string)

  /** spec.get('type', 'pytorch').lower(). */
  function JobType(typeKey: Option<string>): string {
    Text.Lower(typeKey.GetOr(PYTORCH))
  }

  /** create_pytorch_job_manifest: kubeflow.org/v1 PyTorchJob, one Worker
      group restarting on failure, one container named pytorch. The
      framework version is accepted and not used. */
  function CreatePyTorchJobManifest(name: string, namespace: string, image: string, command: seq<string>,
                                    workerReplicas: int, frameworkVersion: string): (m: Manifest)
    ensures m.apiVersion == "kubeflow.org/v1" && m.kind == "PyTorchJob"
    ensures m.name == name && m.namespace == namespace
    ensures m.workerReplicas == workerReplicas && m.restartPolicy == "OnFailure"
    ensures |m.containers| == 1 && m.containers[0].name == PYTORCH &&
            m.containers[0].image == image && m.containers[0].command == command
  {
    Manifest("kubeflow.org/v1", "PyTorchJob", name, namespace, workerReplicas, "OnFailure",
             [ContainerSpec(PYTORCH, image, command)])
  }

  /** The manifest create_ml_job submits for `spec`. */
  function ManifestFor(spec: MLJobSpec, name: string, namespace: string): Manifest
    requires spec.image.Some?
  {
    CreatePyTorchJobManifest(name, namespace, spec.image.value, spec.command.GetOr([]),
                             spec.workerReplicas.GetOr(DEFAULT_WORKER_REPLICAS),
                             spec.frameworkVersion.GetOr(DEFAULT_FRAMEWORK_VERSION))
  }

  /** create_ml_job: an empty image and a type other than pytorch (in any
      case) fail permanently before any call; an ApiException of the create
      fails permanently; success answers {"status": "created"}. */
  function CreateMLJob(spec: MLJobSpec, name: string, namespace: string, submit: Manifest -> Call<()>): (r: Call<Reply>)
    ensures spec.image.None? || spec.image == Some("") ==> r == Raised(Permanent, IMAGE_REQUIRED)
    ensures spec.image.Some? && spec.image != Some("") && JobType(spec.jobType) != PYTORCH ==>
              r == Raised(Permanent, UNSUPPORTED + JobType(spec.jobType))
    ensures r.Ok? <==> spec.image.Some? && spec.image != Some("") && JobType(spec.jobType) == PYTORCH &&
                       submit(ManifestFor(spec, name, namespace)).Ok?
    ensures r.Ok? ==> r.value == Reply("created")
    ensures !r.Ok? ==> r.Raised?
  {
    if spec.image.None? || spec.image == Some("") then Raised(Permanent, IMAGE_REQUIRED)
    else if JobType(spec.jobType) != PYTORCH then Raised(Permanent, UNSUPPORTED + JobType(spec.jobType))
    else
      match submit(ManifestFor(spec, name, namespace))
      case Ok(_) => Ok(Reply("created"))
      case ApiError(_) => Raised(Permanent, CREATE_FAILED + API_EXCEPTION_TEXT)
      case Raised(kind, message) => Raised(kind, message)
  }

  /** The type is compared in lower case: "PyTorch" creates a PyTorchJob. */
  lemma TypeIgnoresCase(spec: MLJobSpec, name: string, namespace: string, submit: Manifest -> Call<()>)
    requires spec.jobType == Some("PyTorch")
    ensures CreateMLJob(spec, name, namespace, submit) == CreateMLJob(spec.(jobType := None), name, namespace, submit)
  {
    assert Text.Lower("PyTorch") == PYTORCH;
  }

  /** delete_ml_job: only a pytorch job is deleted in the cluster; a 404
      answers {"status": "not found"}, any other ApiException fails
      permanently. */
  function DeleteMLJob(typeKey: Option<string>, answer: Call<()>): (r: Call<Reply>)
    ensures JobType(typeKey) != PYTORCH ==> r == Ok(Reply("deleted"))
    ensures answer.IsNotFound() && JobType(typeKey) == PYTORCH ==> r == Ok(Reply("not found"))
    ensures r.Ok? <==> JobType(typeKey) != PYTORCH || answer.Ok? || answer.IsNotFound()
    ensures !r.ApiError?
  {
    if JobType(typeKey) != PYTORCH then Ok(Reply("deleted"))
    else
      match answer
      case Ok(_) => Ok(Reply("deleted"))
      case ApiError(status) =>
        if status == NOT_FOUND then Ok(Reply("not found")) else Raised(Permanent, DELETE_FAILED + API_EXCEPTION_TEXT)
      case Raised(kind, message) => Raised(kind, message)
  }

  /** update_ml_job: delete_ml_job on the old resource object (whose
      top-level `type` key, `oldTypeKey`, is what the delete reads), then
      create_ml_job on the new spec; every failure of either step becomes a
      PermanentError with the update prefix. */
  function UpdateMLJob(spec: MLJobSpec, oldTypeKey: Option<string>, name: string, namespace: string,
                       deleteAnswer: Call<()>, submit: Manifest -> Call<()>): (r: Call<Reply>)
    ensures r.Ok? <==> DeleteMLJob(oldTypeKey, deleteAnswer).Ok? && CreateMLJob(spec, name, namespace, submit).Ok?
    ensures r.Ok? ==> r == CreateMLJob(spec, name, namespace, submit)
    ensures !r.Ok? ==> r.Raised? && r.kind == Permanent && |r.message| >= |UPDATE_FAILED| &&
                       r.message[..|UPDATE_FAILED|] == UPDATE_FAILED
  {
    var deleted := DeleteMLJob(oldTypeKey, deleteAnswer);
    if !deleted.Ok? then Raised(Permanent, UPDATE_FAILED + deleted.Message())
    else
      var created := CreateMLJob(spec, name, namespace, submit);
      if created.Ok? then created else Raised(Permanent, UPDATE_FAILED + created.Message())
  }

  /** A resource object carries its type under spec, not at the top level,
      so the update's delete always takes the pytorch path, and a failed
      delete stops the update whatever the create would answer. */
  lemma UpdateDeletesFirst(spec: MLJobSpec, name: string, namespace: string, deleteAnswer: Call<()>,
                           submit1: Manifest -> Call<()>, submit2: Manifest -> Call<()>)
    requires !deleteAnswer.Ok? && !deleteAnswer.IsNotFound()
    ensures UpdateMLJob(spec, None, name, namespace, deleteAnswer, submit1) ==
            UpdateMLJob(spec, None, name, namespace, deleteAnswer, submit2)
    ensures !UpdateMLJob(spec, None, name, namespace, deleteAnswer, submit1).Ok?
  {
    assert JobType(None) == PYTORCH by { assert Text.Lower(PYTORCH) == PYTORCH; }
  }
}
