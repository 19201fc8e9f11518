/**
 * The three entry points of the template pass over a task specification.
 *
 * ApplyParameters and ApplyResources fill a replacement map in loops and hand it to
 * ApplyReplacements, which deep-copies the specification and rewrites the copy's
 * template fields one by one with the templating package's substitution (`template`,
 * a parameter here). Each loop is proved to compute the matching function of the
 * Rewrite and ReplacementMaps modules, where the properties of the result are proved,
 * except the resource loop: it is proved to meet CoversExports and KeysFromExports, and
 * so equals ResourceReplacements when no two exports share a key (ResourceMapDetermined,
 * applied in ApplyResources).
 */
module Apply {
  import opened Wrappers
  import opened TaskTypes
  import opened Rewrite
  import opened ReplacementMaps

  // ---------------------------------------------------------------------------------------
  // Building the replacement maps

  /** The map of ApplyParameters: non-empty defaults first, then every TaskRun value over them. */
  method BuildParamReplacements(params: seq<Param>, defaults: seq<TaskParam>) returns (replacements: Replacements)
    ensures replacements == ParamReplacements(defaults, params)
  {
    replacements := map[];
    for i := 0 to |defaults|
      invariant replacements == DefaultReplacements(defaults[..i])
    {
      var p := defaults[i];
      assert defaults[..i + 1][..i] == defaults[..i];
      if p.default != "" {
        replacements := replacements[ParamKey(p.name) := p.default];
      }
    }
    assert defaults[..|defaults|] == defaults;
    for i := 0 to |params|
      invariant replacements == RunReplacements(DefaultReplacements(defaults), params[..i])
    {
      var p := params[i];
      assert params[..i + 1][..i] == params[..i];
      replacements := replacements[ParamKey(p.name) := p.value];
    }
    assert params[..|params|] == params;
  }

  /**
   * The map of ApplyResources. Resources and their exports are visited in no fixed order,
   * as a Go map is ranged over; the result holds a key for every export, and every key
   * it holds is the key of an export whose value it carries.
   */
  method BuildResourceReplacements(resolved: map<string, Replacements>, replacementStr: string)
    returns (replacements: Replacements)
    ensures CoversExports(resolved, replacementStr, replacements)
    ensures KeysFromExports(resolved, replacementStr, replacements)
  {
    replacements := map[];
    var names := resolved.Keys;
    ghost var done: set<string> := {};
    while names != {}
      invariant names + done == resolved.Keys && names !! done
      invariant forall name, k :: name in done && k in resolved[name] ==> ResourceKey(replacementStr, name, k) in replacements
      invariant KeysFromExports(resolved, replacementStr, replacements)
      decreases names
    {
      var name :| name in names;
      var exports := resolved[name];
      var keys := exports.Keys;
      ghost var visited: set<string> := {};
      while keys != {}
        invariant keys + visited == exports.Keys && keys !! visited
        invariant forall n, k :: n in done && k in resolved[n] ==> ResourceKey(replacementStr, n, k) in replacements
        invariant forall k :: k in visited ==> ResourceKey(replacementStr, name, k) in replacements
        invariant KeysFromExports(resolved, replacementStr, replacements)
        decreases keys
      {
        var k :| k in keys;
        var before := replacements;
        replacements := replacements[ResourceKey(replacementStr, name, k) := exports[k]];
        forall key | key in replacements
          ensures exists n, k' ::
                    n in resolved && k' in resolved[n]
                    && key == ResourceKey(replacementStr, n, k') && replacements[key] == resolved[n][k']
        {
          if key != ResourceKey(replacementStr, name, k) {
            var n, k' :| n in resolved && k' in resolved[n]
              && key == ResourceKey(replacementStr, n, k') && before[key] == resolved[n][k'];
          }
        }
        keys := keys - {k};
        visited := visited + {k};
      }
      names := names - {name};
      done := done + {name};
    }
  }

  // ---------------------------------------------------------------------------------------
  // Rewriting one step

  /** Rewrites every string of a list, index by index (the loops over Args and Command). */
  method RewriteStrings(xs: seq<string>, t: string -> string) returns (ys: seq<string>)
    ensures ys == SubstituteStrings(xs, t)
  {
    ys := xs;
    for i := 0 to |xs|
      invariant |ys| == |xs|
      invariant forall k :: 0 <= k < i ==> ys[k] == t(xs[k])
      invariant forall k :: i <= k < |xs| ==> ys[k] == xs[k]
    {
      ys := ys[i := t(ys[i])];
    }
  }

  /** The loop over Env: the value always, then the present key references. */
  method RewriteEnv(env: seq<EnvVar>, t: string -> string) returns (out: seq<EnvVar>)
    ensures out == SubstituteEnv(env, t)
  {
    out := env;
    for i := 0 to |env|
      invariant |out| == |env|
      invariant forall k :: 0 <= k < i ==> out[k] == SubstituteEnvVar(env[k], t)
      invariant forall k :: i <= k < |env| ==> out[k] == env[k]
    {
      var e := out[i];
      e := e.(value := t(e.value));
      if e.valueFrom.Some? {
        var from := e.valueFrom.value;
        if from.secretKeyRef.Some? {
          var ref := from.secretKeyRef.value;
          from := from.(secretKeyRef := Some(ref.(name := t(ref.name), key := t(ref.key))));
        }
        if from.configMapKeyRef.Some? {
          var ref := from.configMapKeyRef.value;
          from := from.(configMapKeyRef := Some(ref.(name := t(ref.name), key := t(ref.key))));
        }
        e := e.(valueFrom := Some(from));
      }
      out := out[i := e];
    }
  }

  /** The loop over EnvFrom: the prefix, then the present config-map and secret references. */
  method RewriteEnvFrom(envFrom: seq<EnvFromSource>, t: string -> string) returns (out: seq<EnvFromSource>)
    ensures out == SubstituteEnvFrom(envFrom, t)
  {
    out := envFrom;
    for i := 0 to |envFrom|
      invariant |out| == |envFrom|
      invariant forall k :: 0 <= k < i ==> out[k] == SubstituteEnvFromSource(envFrom[k], t)
      invariant forall k :: i <= k < |envFrom| ==> out[k] == envFrom[k]
    {
      var e := out[i];
      e := e.(prefix := t(e.prefix));
      if e.configMapRef.Some? {
        e := e.(configMapRef := Some(e.configMapRef.value.(name := t(e.configMapRef.value.name))));
      }
      if e.secretRef.Some? {
        e := e.(secretRef := Some(e.secretRef.value.(name := t(e.secretRef.value.name))));
      }
      out := out[i := e];
    }
  }

  /** The loop over VolumeMounts: name, mount path and sub-path. */
  method RewriteVolumeMounts(mounts: seq<VolumeMount>, t: string -> string) returns (out: seq<VolumeMount>)
    ensures out == SubstituteVolumeMounts(mounts, t)
  {
    out := mounts;
    for i := 0 to |mounts|
      invariant |out| == |mounts|
      invariant forall k :: 0 <= k < i ==> out[k] == SubstituteVolumeMount(mounts[k], t)
      invariant forall k :: i <= k < |mounts| ==> out[k] == mounts[k]
    {
      var m := out[i];
      out := out[i := m.(name := t(m.name), mountPath := t(m.mountPath), subPath := t(m.subPath))];
    }
  }

  /** The body of the loop over steps, in the order the fields are visited. */
  method RewriteStep(s: Step, t: string -> string) returns (r: Step)
    ensures r == SubstituteStep(s, t)
  {
    r := s.(name := t(s.name));
    r := r.(image := t(r.image));
    var args := RewriteStrings(r.args, t);
    r := r.(args := args);
    var env := RewriteEnv(r.env, t);
    r := r.(env := env);
    var envFrom := RewriteEnvFrom(r.envFrom, t);
    r := r.(envFrom := envFrom);
    r := r.(workingDir := t(r.workingDir));
    var command := RewriteStrings(r.command, t);
    r := r.(command := command);
    var mounts := RewriteVolumeMounts(r.volumeMounts, t);
    r := r.(volumeMounts := mounts);
  }

  /** The body of the loop over volumes: the name, then the present config-map, secret and claim. */
  method RewriteVolume(w: Volume, t: string -> string) returns (v: Volume)
    ensures v == SubstituteVolume(w, t)
  {
    v := w.(name := t(w.name));
    if v.source.configMap.Some? {
      var c := v.source.configMap.value;
      v := v.(source := v.source.(configMap := Some(c.(name := t(c.name)))));
    }
    if v.source.secret.Some? {
      var s := v.source.secret.value;
      v := v.(source := v.source.(secret := Some(s.(secretName := t(s.secretName)))));
    }
    if v.source.persistentVolumeClaim.Some? {
      var c := v.source.persistentVolumeClaim.value;
      v := v.(source := v.source.(persistentVolumeClaim := Some(c.(claimName := t(c.claimName)))));
    }
  }

  // ---------------------------------------------------------------------------------------
  // The entry points

  /**
   * Deep-copies `spec`, rewrites the copy's steps and volumes, and returns the copy;
   * `spec` itself is left as it was.
   */
  method ApplyReplacements(spec: TaskSpec, replacements: Replacements, template: Templater) returns (result: TaskSpec)
    ensures fresh(result)
    ensures unchanged(spec)
    ensures result.steps == SubstituteSteps(spec.steps, Bind(template, replacements))
    ensures result.volumes == SubstituteVolumes(spec.volumes, Bind(template, replacements))
  {
    result := spec.DeepCopy();
    var t := Bind(template, replacements);

    var i := 0;
    while i < |result.steps|
      invariant 0 <= i <= |result.steps| == |spec.steps|
      invariant result.volumes == spec.volumes
      invariant forall k :: 0 <= k < i ==> result.steps[k] == SubstituteStep(spec.steps[k], t)
      invariant forall k :: i <= k < |result.steps| ==> result.steps[k] == spec.steps[k]
    {
      var s := RewriteStep(result.steps[i], t);
      result.steps := result.steps[i := s];
      i := i + 1;
    }

    i := 0;
    while i < |result.volumes|
      invariant 0 <= i <= |result.volumes| == |spec.volumes|
      invariant result.steps == SubstituteSteps(spec.steps, t)
      invariant forall k :: 0 <= k < i ==> result.volumes[k] == SubstituteVolume(spec.volumes[k], t)
      invariant forall k :: i <= k < |result.volumes| ==> result.volumes[k] == spec.volumes[k]
    {
      var v := RewriteVolume(result.volumes[i], t);
      result.volumes := result.volumes[i := v];
      i := i + 1;
    }
  }

  /** Rewrites a copy of `spec` with the TaskRun's parameters over the Task's defaults. */
  method ApplyParameters(spec: TaskSpec, params: seq<Param>, defaults: seq<TaskParam>, template: Templater)
    returns (result: TaskSpec)
    ensures fresh(result)
    ensures unchanged(spec)
    ensures result.steps == SubstituteSteps(spec.steps, Bind(template, ParamReplacements(defaults, params)))
    ensures result.volumes == SubstituteVolumes(spec.volumes, Bind(template, ParamReplacements(defaults, params)))
  {
    var replacements := BuildParamReplacements(params, defaults);
    result := ApplyReplacements(spec, replacements, template);
  }

  /**
   * Rewrites a copy of `spec` with the exports of the resolved resources under
   * `<replacementStr>.resources.<name>.<key>`. Which export wins a shared key depends on
   * the visiting order; with no shared key the map is the one of ResourceReplacements.
   */
  method ApplyResources(spec: TaskSpec, resolved: map<string, Replacements>, replacementStr: string, template: Templater)
    returns (result: TaskSpec)
    ensures fresh(result)
    ensures unchanged(spec)
    ensures exists m ::
              && CoversExports(resolved, replacementStr, m)
              && KeysFromExports(resolved, replacementStr, m)
              && result.steps == SubstituteSteps(spec.steps, Bind(template, m))
              && result.volumes == SubstituteVolumes(spec.volumes, Bind(template, m))
    ensures CollisionFree(resolved, replacementStr) ==>
      && result.steps == SubstituteSteps(spec.steps, Bind(template, ResourceReplacements(resolved, replacementStr)))
      && result.volumes == SubstituteVolumes(spec.volumes, Bind(template, ResourceReplacements(resolved, replacementStr)))
  {
    var replacements := BuildResourceReplacements(resolved, replacementStr);
    result := ApplyReplacements(spec, replacements, template);
    if CollisionFree(resolved, replacementStr) {
      ResourceMapDetermined(resolved, replacementStr, replacements);
    }
  }
}
