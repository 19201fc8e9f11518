/**
 * The parts of the Tekton and Kubernetes types that the template pass reads or writes.
 * Every struct nested in the specification is a datatype: value semantics give the deep
 * copy, and the rewrite builds new values. The task specification itself is a class,
 * because the pass copies it and then rewrites the copy's fields in place.
 */
module TaskTypes {
  import opened Wrappers

  /** Replacement map: fully qualified key (`inputs.params.x`) to its value. */
  type Replacements = map<string, string>

  /**
   * The string substitution of the templating package: it rewrites one string using a
   * replacement map. Its placeholder syntax is not part of this model, so it is a parameter.
   */
  type Templater = (string, Replacements) -> string

  /** ConfigMapKeySelector and SecretKeySelector: a referenced object's name and a key in it. */
  datatype KeySelector = KeySelector(name: string, key: string, optional: Option<bool>)

  /** ObjectFieldSelector: a source of an env value that the pass never rewrites. */
  datatype ObjectFieldSelector = ObjectFieldSelector(apiVersion: string, fieldPath: string)

  /** EnvVarSource: each reference is tested for nil separately. */
  datatype EnvVarSource = EnvVarSource(
    fieldRef: Option<ObjectFieldSelector>,
    configMapKeyRef: Option<KeySelector>,
    secretKeyRef: Option<KeySelector>)

  datatype EnvVar = EnvVar(name: string, value: string, valueFrom: Option<EnvVarSource>)

  /** ConfigMapEnvSource and SecretEnvSource. */
  datatype EnvSourceRef = EnvSourceRef(name: string, optional: Option<bool>)

  datatype EnvFromSource = EnvFromSource(
    prefix: string,
    configMapRef: Option<EnvSourceRef>,
    secretRef: Option<EnvSourceRef>)

  datatype VolumeMount = VolumeMount(name: string, readOnly: bool, mountPath: string, subPath: string)

  /** A step of a task (a Kubernetes container); `imagePullPolicy` is a field the pass leaves alone. */
  datatype Step = Step(
    name: string,
    image: string,
    command: seq<string>,
    args: seq<string>,
    workingDir: string,
    env: seq<EnvVar>,
    envFrom: seq<EnvFromSource>,
    volumeMounts: seq<VolumeMount>,
    imagePullPolicy: string)

  datatype KeyToPath = KeyToPath(key: string, path: string)

  datatype ConfigMapVolumeSource = ConfigMapVolumeSource(name: string, items: seq<KeyToPath>)

  datatype SecretVolumeSource = SecretVolumeSource(secretName: string, items: seq<KeyToPath>)

  datatype PersistentVolumeClaimVolumeSource = PersistentVolumeClaimVolumeSource(claimName: string, readOnly: bool)

  datatype HostPathVolumeSource = HostPathVolumeSource(path: string)

  datatype EmptyDirVolumeSource = EmptyDirVolumeSource(medium: string)

  /**
   * VolumeSource: a struct of nil-able pointers, each tested separately. Host-path and
   * empty-dir sources stand for the sources that the pass passes through untouched.
   */
  datatype VolumeSource = VolumeSource(
    hostPath: Option<HostPathVolumeSource>,
    emptyDir: Option<EmptyDirVolumeSource>,
    secret: Option<SecretVolumeSource>,
    persistentVolumeClaim: Option<PersistentVolumeClaimVolumeSource>,
    configMap: Option<ConfigMapVolumeSource>)

  datatype Volume = Volume(name: string, source: VolumeSource)

  /** A parameter value supplied by a TaskRun. */
  datatype Param = Param(name: string, value: string)

  /** A parameter declared by a Task, with its default ("" when none is declared). */
  datatype TaskParam = TaskParam(name: string, description: string, default: string)

  /** The task specification: the pass reads and rewrites its steps and volumes. */
  class TaskSpec {
    var steps: seq<Step>
    var volumes: seq<Volume>

    constructor (steps: seq<Step>, volumes: seq<Volume>)
      ensures this.steps == steps && this.volumes == volumes
    {
      this.steps := steps;
      this.volumes := volumes;
    }

    /** A new specification holding equal contents and sharing nothing mutable with this one. */
    method DeepCopy() returns (c: TaskSpec)
      ensures fresh(c)
      ensures c.steps == steps && c.volumes == volumes
    {
      c := new TaskSpec(steps, volumes);
    }
  }
}
