/**
 * What the field-by-field rewrite of ApplyReplacements computes, stated as pure functions
 * over the copied values, and what it keeps: the shape of every list and every optional
 * reference, every field outside the template fields, and a single application of the
 * substitution to each template field. The substitution is any `t: string -> string`:
 * `Bind(template, replacements)` is the one the pass uses.
 */
module Rewrite {
  import opened Wrappers
  import opened TaskTypes

  /** The substitution that the pass applies to every template field. */
  function Bind(template: Templater, replacements: Replacements): (sub: string -> string)
  {
    s => template(s, replacements)
  }

  /** The substitution that empties every field it is applied to; used to compare the other fields. */
  function Blank(): (sub: string -> string)
  {
    _ => ""
  }

  function SubstituteStrings(xs: seq<string>, t: string -> string): (r: seq<string>)
  {
    seq(|xs|, i requires 0 <= i < |xs| => t(xs[i]))
  }

  function SubstituteKeySelector(k: KeySelector, t: string -> string): (r: KeySelector)
  {
    k.(name := t(k.name), key := t(k.key))
  }

  function SubstituteEnvVarSource(v: EnvVarSource, t: string -> string): (r: EnvVarSource)
  {
    v.(secretKeyRef := if v.secretKeyRef.Some? then Some(SubstituteKeySelector(v.secretKeyRef.value, t)) else None,
       configMapKeyRef := if v.configMapKeyRef.Some? then Some(SubstituteKeySelector(v.configMapKeyRef.value, t)) else None)
  }

  /** The value is rewritten whether or not a value source is present. */
  function SubstituteEnvVar(e: EnvVar, t: string -> string): (r: EnvVar)
  {
    e.(value := t(e.value),
       valueFrom := if e.valueFrom.Some? then Some(SubstituteEnvVarSource(e.valueFrom.value, t)) else None)
  }

  function SubstituteEnv(env: seq<EnvVar>, t: string -> string): (r: seq<EnvVar>)
  {
    seq(|env|, i requires 0 <= i < |env| => SubstituteEnvVar(env[i], t))
  }

  function SubstituteEnvSourceRef(ref: EnvSourceRef, t: string -> string): (r: EnvSourceRef)
  {
    ref.(name := t(ref.name))
  }

  function SubstituteEnvFromSource(e: EnvFromSource, t: string -> string): (r: EnvFromSource)
  {
    e.(prefix := t(e.prefix),
       configMapRef := if e.configMapRef.Some? then Some(SubstituteEnvSourceRef(e.configMapRef.value, t)) else None,
       secretRef := if e.secretRef.Some? then Some(SubstituteEnvSourceRef(e.secretRef.value, t)) else None)
  }

  function SubstituteEnvFrom(envFrom: seq<EnvFromSource>, t: string -> string): (r: seq<EnvFromSource>)
  {
    seq(|envFrom|, i requires 0 <= i < |envFrom| => SubstituteEnvFromSource(envFrom[i], t))
  }

  function SubstituteVolumeMount(m: VolumeMount, t: string -> string): (r: VolumeMount)
  {
    m.(name := t(m.name), mountPath := t(m.mountPath), subPath := t(m.subPath))
  }

  function SubstituteVolumeMounts(mounts: seq<VolumeMount>, t: string -> string): (r: seq<VolumeMount>)
  {
    seq(|mounts|, i requires 0 <= i < |mounts| => SubstituteVolumeMount(mounts[i], t))
  }

  /** A step with every template field rewritten once; `imagePullPolicy` and env names are kept. */
  function SubstituteStep(s: Step, t: string -> string): (r: Step)
  {
    s.(name := t(s.name),
       image := t(s.image),
       args := SubstituteStrings(s.args, t),
       env := SubstituteEnv(s.env, t),
       envFrom := SubstituteEnvFrom(s.envFrom, t),
       workingDir := t(s.workingDir),
       command := SubstituteStrings(s.command, t),
       volumeMounts := SubstituteVolumeMounts(s.volumeMounts, t))
  }

  function SubstituteSteps(steps: seq<Step>, t: string -> string): (r: seq<Step>)
  {
    seq(|steps|, i requires 0 <= i < |steps| => SubstituteStep(steps[i], t))
  }

  /** The volume source: only the three named sources have a name rewritten. */
  function SubstituteVolumeSource(v: VolumeSource, t: string -> string): (r: VolumeSource)
  {
    v.(configMap := if v.configMap.Some? then Some(v.configMap.value.(name := t(v.configMap.value.name))) else None,
       secret := if v.secret.Some? then Some(v.secret.value.(secretName := t(v.secret.value.secretName))) else None,
       persistentVolumeClaim :=
         if v.persistentVolumeClaim.Some?
         then Some(v.persistentVolumeClaim.value.(claimName := t(v.persistentVolumeClaim.value.claimName)))
         else None)
  }

  function SubstituteVolume(v: Volume, t: string -> string): (r: Volume)
  {
    v.(name := t(v.name), source := SubstituteVolumeSource(v.source, t))
  }

  function SubstituteVolumes(volumes: seq<Volume>, t: string -> string): (r: seq<Volume>)
  {
    seq(|volumes|, i requires 0 <= i < |volumes| => SubstituteVolume(volumes[i], t))
  }

  // ---------------------------------------------------------------------------------------
  // Shape

  /** Two env vars have the same shape when the same optional references are present. */
  ghost predicate SameEnvVarShape(a: EnvVar, b: EnvVar)
  {
    && a.valueFrom.Some? == b.valueFrom.Some?
    && (a.valueFrom.Some? ==>
          && a.valueFrom.value.fieldRef.Some? == b.valueFrom.value.fieldRef.Some?
          && a.valueFrom.value.secretKeyRef.Some? == b.valueFrom.value.secretKeyRef.Some?
          && a.valueFrom.value.configMapKeyRef.Some? == b.valueFrom.value.configMapKeyRef.Some?)
  }

  ghost predicate SameEnvFromShape(a: EnvFromSource, b: EnvFromSource)
  {
    a.configMapRef.Some? == b.configMapRef.Some? && a.secretRef.Some? == b.secretRef.Some?
  }

  /** Same list lengths and, element by element, the same optional references present. */
  ghost predicate SameStepShape(a: Step, b: Step)
  {
    && |a.args| == |b.args|
    && |a.command| == |b.command|
    && |a.env| == |b.env|
    && |a.envFrom| == |b.envFrom|
    && |a.volumeMounts| == |b.volumeMounts|
    && (forall i :: 0 <= i < |a.env| ==> SameEnvVarShape(a.env[i], b.env[i]))
    && (forall i :: 0 <= i < |a.envFrom| ==> SameEnvFromShape(a.envFrom[i], b.envFrom[i]))
  }

  ghost predicate SameVolumeShape(a: Volume, b: Volume)
  {
    && a.source.hostPath.Some? == b.source.hostPath.Some?
    && a.source.emptyDir.Some? == b.source.emptyDir.Some?
    && a.source.secret.Some? == b.source.secret.Some?
    && a.source.persistentVolumeClaim.Some? == b.source.persistentVolumeClaim.Some?
    && a.source.configMap.Some? == b.source.configMap.Some?
  }

  /** The rewrite keeps the number of steps and volumes and the shape of each. */
  lemma SubstitutionPreservesShape(steps: seq<Step>, volumes: seq<Volume>, t: string -> string)
    ensures |SubstituteSteps(steps, t)| == |steps|
    ensures forall i :: 0 <= i < |steps| ==> SameStepShape(steps[i], SubstituteSteps(steps, t)[i])
    ensures |SubstituteVolumes(volumes, t)| == |volumes|
    ensures forall i :: 0 <= i < |volumes| ==> SameVolumeShape(volumes[i], SubstituteVolumes(volumes, t)[i])
  {
  }

  // ---------------------------------------------------------------------------------------
  // Which fields are rewritten

  /** Every template field of a step becomes `t` of its old value; env names are kept. */
  lemma StepTemplateFieldsSubstituted(s: Step, t: string -> string)
    ensures var r := SubstituteStep(s, t);
      && r.name == t(s.name)
      && r.image == t(s.image)
      && r.workingDir == t(s.workingDir)
      && r.imagePullPolicy == s.imagePullPolicy
      && |r.args| == |s.args| && (forall i :: 0 <= i < |s.args| ==> r.args[i] == t(s.args[i]))
      && |r.command| == |s.command| && (forall i :: 0 <= i < |s.command| ==> r.command[i] == t(s.command[i]))
      && |r.env| == |s.env|
      && (forall i :: 0 <= i < |s.env| ==>
            && r.env[i].name == s.env[i].name
            && r.env[i].value == t(s.env[i].value)
            && r.env[i].valueFrom.Some? == s.env[i].valueFrom.Some?
            && (s.env[i].valueFrom.Some? ==>
                  var (a, b) := (s.env[i].valueFrom.value, r.env[i].valueFrom.value);
                  && b.fieldRef == a.fieldRef
                  && b.secretKeyRef.Some? == a.secretKeyRef.Some?
                  && (a.secretKeyRef.Some? ==>
                        && b.secretKeyRef.value.name == t(a.secretKeyRef.value.name)
                        && b.secretKeyRef.value.key == t(a.secretKeyRef.value.key)
                        && b.secretKeyRef.value.optional == a.secretKeyRef.value.optional)
                  && b.configMapKeyRef.Some? == a.configMapKeyRef.Some?
                  && (a.configMapKeyRef.Some? ==>
                        && b.configMapKeyRef.value.name == t(a.configMapKeyRef.value.name)
                        && b.configMapKeyRef.value.key == t(a.configMapKeyRef.value.key)
                        && b.configMapKeyRef.value.optional == a.configMapKeyRef.value.optional)))
      && |r.envFrom| == |s.envFrom|
      && (forall i :: 0 <= i < |s.envFrom| ==>
            var (a, b) := (s.envFrom[i], r.envFrom[i]);
            && b.prefix == t(a.prefix)
            && b.configMapRef.Some? == a.configMapRef.Some?
            && (a.configMapRef.Some? ==>
                  b.configMapRef.value == a.configMapRef.value.(name := t(a.configMapRef.value.name)))
            && b.secretRef.Some? == a.secretRef.Some?
            && (a.secretRef.Some? ==>
                  b.secretRef.value == a.secretRef.value.(name := t(a.secretRef.value.name))))
      && |r.volumeMounts| == |s.volumeMounts|
      && (forall i :: 0 <= i < |s.volumeMounts| ==>
            var (a, b) := (s.volumeMounts[i], r.volumeMounts[i]);
            && b.name == t(a.name)
            && b.mountPath == t(a.mountPath)
            && b.subPath == t(a.subPath)
            && b.readOnly == a.readOnly)
  {
  }

  /**
   * A volume's name and the name of each present config-map, secret or claim source are
   * rewritten; every other source passes through as it is.
   */
  lemma VolumeTemplateFieldsSubstituted(v: Volume, t: string -> string)
    ensures var r := SubstituteVolume(v, t);
      && r.name == t(v.name)
      && r.source.hostPath == v.source.hostPath
      && r.source.emptyDir == v.source.emptyDir
      && r.source.configMap.Some? == v.source.configMap.Some?
      && (v.source.configMap.Some? ==>
            r.source.configMap.value == v.source.configMap.value.(name := t(v.source.configMap.value.name)))
      && r.source.secret.Some? == v.source.secret.Some?
      && (v.source.secret.Some? ==>
            r.source.secret.value == v.source.secret.value.(secretName := t(v.source.secret.value.secretName)))
      && r.source.persistentVolumeClaim.Some? == v.source.persistentVolumeClaim.Some?
      && (v.source.persistentVolumeClaim.Some? ==>
            r.source.persistentVolumeClaim.value
            == v.source.persistentVolumeClaim.value.(claimName := t(v.source.persistentVolumeClaim.value.claimName)))
  {
  }

  // ---------------------------------------------------------------------------------------
  // Composition, identity, and nothing else changes

  lemma {:induction false} StringsCompose(xs: seq<string>, t: string -> string, u: string -> string, v: string -> string)
    requires forall x :: v(x) == u(t(x))
    ensures SubstituteStrings(SubstituteStrings(xs, t), u) == SubstituteStrings(xs, v)
  {
    var l, r := SubstituteStrings(SubstituteStrings(xs, t), u), SubstituteStrings(xs, v);
    assert |l| == |r|;
    forall i | 0 <= i < |l| ensures l[i] == r[i] {
      assert l[i] == u(t(xs[i]));
    }
  }

  lemma {:induction false} StepCompose(s: Step, t: string -> string, u: string -> string, v: string -> string)
    requires forall x :: v(x) == u(t(x))
    ensures SubstituteStep(SubstituteStep(s, t), u) == SubstituteStep(s, v)
  {
    var l, r := SubstituteStep(SubstituteStep(s, t), u), SubstituteStep(s, v);
    StringsCompose(s.args, t, u, v);
    StringsCompose(s.command, t, u, v);
    assert l.env == r.env by {
      forall i | 0 <= i < |s.env| ensures l.env[i] == r.env[i] {
        var e := s.env[i];
        if e.valueFrom.Some? {
          var a := e.valueFrom.value;
          assert l.env[i].valueFrom.value.secretKeyRef == r.env[i].valueFrom.value.secretKeyRef;
          assert l.env[i].valueFrom.value.configMapKeyRef == r.env[i].valueFrom.value.configMapKeyRef;
        }
      }
    }
    assert l.envFrom == r.envFrom by {
      forall i | 0 <= i < |s.envFrom| ensures l.envFrom[i] == r.envFrom[i] {
        assert l.envFrom[i].configMapRef == r.envFrom[i].configMapRef;
        assert l.envFrom[i].secretRef == r.envFrom[i].secretRef;
      }
    }
    assert l.volumeMounts == r.volumeMounts by {
      forall i | 0 <= i < |s.volumeMounts| ensures l.volumeMounts[i] == r.volumeMounts[i] {
      }
    }
  }

  lemma {:induction false} VolumeCompose(w: Volume, t: string -> string, u: string -> string, v: string -> string)
    requires forall x :: v(x) == u(t(x))
    ensures SubstituteVolume(SubstituteVolume(w, t), u) == SubstituteVolume(w, v)
  {
    var l, r := SubstituteVolume(SubstituteVolume(w, t), u), SubstituteVolume(w, v);
    assert l.source.configMap == r.source.configMap;
    assert l.source.secret == r.source.secret;
    assert l.source.persistentVolumeClaim == r.source.persistentVolumeClaim;
  }

  /**
   * Rewriting with `t` and then with `u` is one rewrite with their composition: each
   * template field is rewritten by each pass exactly once, and nothing else is touched.
   */
  lemma {:induction false} SubstitutionComposes(
    steps: seq<Step>, volumes: seq<Volume>, t: string -> string, u: string -> string, v: string -> string)
    requires forall x :: v(x) == u(t(x))
    ensures SubstituteSteps(SubstituteSteps(steps, t), u) == SubstituteSteps(steps, v)
    ensures SubstituteVolumes(SubstituteVolumes(volumes, t), u) == SubstituteVolumes(volumes, v)
  {
    var ls, rs := SubstituteSteps(SubstituteSteps(steps, t), u), SubstituteSteps(steps, v);
    forall i | 0 <= i < |steps| ensures ls[i] == rs[i] {
      StepCompose(steps[i], t, u, v);
    }
    var lv, rv := SubstituteVolumes(SubstituteVolumes(volumes, t), u), SubstituteVolumes(volumes, v);
    forall i | 0 <= i < |volumes| ensures lv[i] == rv[i] {
      VolumeCompose(volumes[i], t, u, v);
    }
  }

  /** With a substitution that changes no string, the rewrite returns its input. */
  lemma {:induction false} IdentitySubstitutionChangesNothing(steps: seq<Step>, volumes: seq<Volume>, t: string -> string)
    requires forall x :: t(x) == x
    ensures SubstituteSteps(steps, t) == steps
    ensures SubstituteVolumes(volumes, t) == volumes
  {
    var ls := SubstituteSteps(steps, t);
    forall i | 0 <= i < |steps| ensures ls[i] == steps[i] {
      var s := steps[i];
      assert SubstituteStrings(s.args, t) == s.args;
      assert SubstituteStrings(s.command, t) == s.command;
      assert SubstituteEnv(s.env, t) == s.env by {
        forall k | 0 <= k < |s.env| ensures SubstituteEnv(s.env, t)[k] == s.env[k] {
          var e := s.env[k];
          if e.valueFrom.Some? {
            var a := e.valueFrom.value;
            assert SubstituteEnvVarSource(a, t).secretKeyRef == a.secretKeyRef;
            assert SubstituteEnvVarSource(a, t).configMapKeyRef == a.configMapKeyRef;
          }
        }
      }
      assert SubstituteEnvFrom(s.envFrom, t) == s.envFrom by {
        forall k | 0 <= k < |s.envFrom| ensures SubstituteEnvFrom(s.envFrom, t)[k] == s.envFrom[k] {
          var e := s.envFrom[k];
          assert SubstituteEnvFromSource(e, t).configMapRef == e.configMapRef;
          assert SubstituteEnvFromSource(e, t).secretRef == e.secretRef;
        }
      }
      assert SubstituteVolumeMounts(s.volumeMounts, t) == s.volumeMounts;
    }
    var lv := SubstituteVolumes(volumes, t);
    forall i | 0 <= i < |volumes| ensures lv[i] == volumes[i] {
      var w := volumes[i];
      assert SubstituteVolumeSource(w.source, t).configMap == w.source.configMap;
      assert SubstituteVolumeSource(w.source, t).secret == w.source.secret;
      assert SubstituteVolumeSource(w.source, t).persistentVolumeClaim == w.source.persistentVolumeClaim;
    }
  }

  /**
   * Nothing outside the fields the rewrite substitutes changes: once those fields are
   * blanked, the rewritten steps and volumes equal the original ones. Which fields they
   * are (and that env names are not among them) is stated by StepTemplateFieldsSubstituted
   * and VolumeTemplateFieldsSubstituted.
   */
  lemma {:induction false} OnlyTemplateFieldsChange(steps: seq<Step>, volumes: seq<Volume>, t: string -> string)
    ensures SubstituteSteps(SubstituteSteps(steps, t), Blank()) == SubstituteSteps(steps, Blank())
    ensures SubstituteVolumes(SubstituteVolumes(volumes, t), Blank()) == SubstituteVolumes(volumes, Blank())
  {
    SubstitutionComposes(steps, volumes, t, Blank(), Blank());
  }
}
