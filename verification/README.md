# Template substitution over a Tekton TaskSpec

This project models `pkg/reconciler/v1alpha1/taskrun/resources/apply.go` of the Tekton
pipeline controller and proves properties of the model. The file is the pass that replaces
placeholders in a Task's specification before the TaskRun's pod is built. It has three
entry points:

- `ApplyParameters` builds a replacement map from the parameters. It first enters every
  non-empty default of the Task under `inputs.params.<name>`. It then enters every value of
  the TaskRun under the same key, with no condition, so a run value overwrites a default.
  The map goes to `ApplyReplacements`.
- `ApplyResources` builds a map from the resolved resources. Each export `(k, v)` of the
  resource bound as `name` is entered under `<replacementStr>.resources.<name>.<k>`.
- `ApplyReplacements` deep-copies the spec, rewrites a fixed list of string fields of every
  step and every volume of the copy in place, and returns the copy.

The string substitution itself belongs to the templating package, which is not part of
this model. It is the parameter `template: (string, Replacements) -> string`. Every
structural property is proved for any substitution.

Layout:

- `wrappers.dfy` (`Wrappers`): `Option`, which stands for a nil-able pointer.
- `types.dfy` (`TaskTypes`): the Kubernetes and Tekton structs the pass touches.
  Containers (`Step`), env vars, env sources, volume mounts and volumes are datatypes.
  Each optional sub-object is an `Option` field of its own, because the code tests each one
  for nil separately. `TaskSpec` is a class whose `steps` and `volumes` fields the pass
  rewrites. Its `DeepCopy` method returns a fresh object.
- `rewrite.dfy` (`Rewrite`): what the rewrite computes, as pure functions
  (`SubstituteStep`, `SubstituteVolume`, …). It also holds the lemmas on shape, on which
  fields change, on composition, on identity, and on "nothing else changes".
- `replacement_maps.dfy` (`ReplacementMaps`): the key forms, the two-pass parameter map as
  a fold, and the properties of the parameter and resource maps.
- `apply.dfy` (`Apply`): the entry points and the loops of the source. Each loop is proved
  equal to the matching function above, except the resource loop. That loop is proved to
  meet `CoversExports` and `KeysFromExports`. It therefore equals `ResourceReplacements`
  when no two exports share a key (`ResourceMapDetermined`, applied in `ApplyResources`).

Kubernetes documents `EnvVarSource` and `VolumeSource` as structs of which one member is set.
`apply.go` does not rely on that. It always rewrites an env var's `Value` (line 69), even
when `ValueFrom` is set, and it tests each pointer for nil on its own (lines 71, 75, 83, 86,
104, 107 and 110). The model therefore keeps a separate `Option` field for each, and rewrites
every one that is present.

## Model

| member | source | states |
|---|---|---|
| `Apply.BuildParamReplacements` | pkg/reconciler/v1alpha1/taskrun/resources/apply.go:29-39 | The two loops build exactly `ParamReplacements(defaults, params)`: the fold that enters each non-empty default in order, then each run value in order over it. |
| `ReplacementMaps.ParamKey` | pkg/reconciler/v1alpha1/taskrun/resources/apply.go:33 | A parameter key is `inputs.params.` followed by the name, and the name can be read back from the key, so distinct names give distinct keys. |
| `ReplacementMaps.ParamReplacementsKeys` | pkg/reconciler/v1alpha1/taskrun/resources/apply.go:31-39 | The key set is exactly `inputs.params.n` for each TaskRun parameter name n (even with an empty value) and each name with a non-empty default. |
| `ReplacementMaps.RunValueWins` | pkg/reconciler/v1alpha1/taskrun/resources/apply.go:36-39 | For the last TaskRun parameter of a name, its key holds that parameter's value, whatever defaults exist for the name. |
| `ReplacementMaps.DefaultUsedWhenNotOverridden` | pkg/reconciler/v1alpha1/taskrun/resources/apply.go:31-35 | With no TaskRun parameter of that name, the key holds the last non-empty default of the name. A later empty default does not erase it. |
| `ReplacementMaps.EmptyDefaultOmitted` | pkg/reconciler/v1alpha1/taskrun/resources/apply.go:31-35 | The key of a name is absent when no TaskRun parameter has that name and every default of it is the empty string. |
| `Apply.BuildResourceReplacements` | pkg/reconciler/v1alpha1/taskrun/resources/apply.go:47-52 | The loops visit resources and exports in any order. Every export's key `<replacementStr>.resources.<name>.<k>` is in the map. Every key in the map has that form for some export and holds that export's value. |
| `ReplacementMaps.ExportedValueWhenCollisionFree` | pkg/reconciler/v1alpha1/taskrun/resources/apply.go:47-52 | If no two exports share a key, any such map holds each export's value under its key. |
| `ReplacementMaps.ResourceMapDetermined` | pkg/reconciler/v1alpha1/taskrun/resources/apply.go:48-52 | If no two exports share a key, any such map equals `ResourceReplacements`, so the visiting order does not matter. |
| `ReplacementMaps.KeysCanCollide` | pkg/reconciler/v1alpha1/taskrun/resources/apply.go:50 | Resource `a.b` with key `c` and resource `a` with key `b.c` produce the same key, so the exports are not collision-free. The maps holding `x` and `y` under that key both meet everything the building loop promises, and they differ: the visiting order decides the result. |
| `ReplacementMaps.DotFreeNamesCollisionFree` | pkg/reconciler/v1alpha1/taskrun/resources/apply.go:50 | If no resource name contains a dot, no two exports share a key. |
| `TaskTypes.TaskSpec.DeepCopy` | pkg/reconciler/v1alpha1/taskrun/resources/apply.go:58 | The copy is a newly allocated spec with equal steps and volumes. |
| `Apply.RewriteStrings` | pkg/reconciler/v1alpha1/taskrun/resources/apply.go:65-67 | The index loop over `Args` (and the same loop over `Command`, lines 91-93) replaces each entry by its substitution and keeps the length. |
| `Apply.RewriteEnv` | pkg/reconciler/v1alpha1/taskrun/resources/apply.go:68-80 | The loop over `Env` yields `SubstituteEnv`. Each value is substituted. The name and key of each present secret or config-map key reference are substituted. |
| `Apply.RewriteEnvFrom` | pkg/reconciler/v1alpha1/taskrun/resources/apply.go:81-89 | The loop over `EnvFrom` yields `SubstituteEnvFrom`. Each prefix and the name of each present config-map or secret reference are substituted. |
| `Apply.RewriteVolumeMounts` | pkg/reconciler/v1alpha1/taskrun/resources/apply.go:94-98 | The loop over `VolumeMounts` yields `SubstituteVolumeMounts`. Each name, mount path and sub-path is substituted. |
| `Apply.RewriteStep` | pkg/reconciler/v1alpha1/taskrun/resources/apply.go:62-98 | The body of the loop over steps rewrites a step into `SubstituteStep` of it. |
| `Apply.RewriteVolume` | pkg/reconciler/v1alpha1/taskrun/resources/apply.go:102-113 | The body of the loop over volumes rewrites a volume into `SubstituteVolume` of it: the name, then the name of each present config-map, secret or claim source. |
| `Apply.ApplyReplacements` | pkg/reconciler/v1alpha1/taskrun/resources/apply.go:57-116 | Returns a fresh spec and leaves the input unchanged. The result's steps are `SubstituteSteps` and its volumes are `SubstituteVolumes` of the input's, under the bound substitution. |
| `Apply.ApplyParameters` | pkg/reconciler/v1alpha1/taskrun/resources/apply.go:27-42 | Returns a fresh spec and leaves the input unchanged. The result is the rewrite under the map `ParamReplacements(defaults, params)`. |
| `Apply.ApplyResources` | pkg/reconciler/v1alpha1/taskrun/resources/apply.go:46-54 | Returns a fresh spec and leaves the input unchanged. The result is the rewrite under some map that covers the exports and holds only them. With no collisions, that map is `ResourceReplacements`. |
| `Rewrite.SubstitutionPreservesShape` | pkg/reconciler/v1alpha1/taskrun/resources/apply.go:61-113 | The numbers of steps and volumes are kept. So are the lengths of each step's args, command, env, envFrom and volume mounts. So is the presence of every optional reference (value source, field, secret and config-map refs, env-from refs, and all five volume sources). |
| `Rewrite.StepTemplateFieldsSubstituted` | pkg/reconciler/v1alpha1/taskrun/resources/apply.go:62-98 | The step's name, image and working dir each become `t` of the old value. So does each arg, command entry and env value (even when a value source is set). So do the present key-ref names and keys, the env-from prefixes and ref names, and the mount name, path and sub-path. Env names, field refs, optional flags, read-only flags and the pull policy are kept. |
| `Rewrite.VolumeTemplateFieldsSubstituted` | pkg/reconciler/v1alpha1/taskrun/resources/apply.go:102-113 | A volume's name, a present config-map name, secret name and claim name become `t` of the old value. Their items and read-only flags are kept. Host-path and empty-dir sources pass through unchanged. |
| `Rewrite.SubstitutionComposes` | pkg/reconciler/v1alpha1/taskrun/resources/apply.go:61-113 | Rewriting with `t` and then with `u` equals one rewrite with `u ∘ t`. Within a pass, each field the rewrite substitutes is substituted once, and its replaced text is not substituted again. Which fields those are is stated by `StepTemplateFieldsSubstituted` and `VolumeTemplateFieldsSubstituted`. |
| `Rewrite.IdentitySubstitutionChangesNothing` | pkg/reconciler/v1alpha1/taskrun/resources/apply.go:61-113 | If the substitution changes no string, the rewritten steps and volumes equal the input. |
| `Rewrite.OnlyTemplateFieldsChange` | pkg/reconciler/v1alpha1/taskrun/resources/apply.go:61-113 | Blanking every field the rewrite substitutes gives the same steps and volumes for the result as for the input. The rewrite therefore differs from its input only in the fields it substitutes. Those fields are listed by `StepTemplateFieldsSubstituted` and `VolumeTemplateFieldsSubstituted`, which also state that env names are never substituted. |

## Left out

- The templating package's placeholder syntax and replacement rule are not part of this model. `template` is a parameter, so pass-through of unknown placeholders is not modelled. Neither is single-pass expansion within one string.
- `PipelineResourceInterface.Replacements()` is a call into the resource types. Each resolved resource is given as the map it returns.
- The `TaskRun` argument of `ApplyParameters` is reduced to its input parameters (`tr.Spec.Inputs.Params`). Nothing else of it is read.
- The generated `DeepCopy` code is modelled by its effect: a fresh `TaskSpec` holding equal values. Datatype values cannot alias, so the copied nested structs share nothing with the input.
- Kubernetes fields that the pass neither reads nor writes are left out. Examples are ports, resources and probes of a container, and the other volume source kinds beyond host-path and empty-dir. The fields kept that are not rewritten (`imagePullPolicy`, env names, field refs, optional and read-only flags, items) stand for them.
- The other fields of `TaskSpec` (inputs, outputs) are not rewritten by the pass and are not modelled.
- Nil inputs are not modelled. In Go, a nil `spec` makes `DeepCopy()` return nil, and line 61 then panics. A nil resource in `resolvedResources` panics at line 49. The model's non-null `TaskSpec` and its map of export maps cannot express these inputs.
- Checking TaskRun parameters against the Task's declared parameters is assumed done by the caller, so it is not modelled.
- `Apply.ApplyResources`: when two exports share a key, the model states only that some export of that key wins. Go's map order decides which one, and it is not specified.
