/**
 * The replacement maps that ApplyParameters and ApplyResources build, and what they hold.
 *
 * Parameters: a first pass enters every non-empty default, a second pass enters every
 * TaskRun value, overwriting. `ParamReplacements` is that two-pass fold; the lemmas below
 * say which keys it holds and which value wins.
 *
 * Resources: every exported pair (k, v) of a resource bound under `name` is entered
 * under `<replacementStr>.resources.<name>.<k>`.
 */
module ReplacementMaps {
  import opened TaskTypes

  const PARAM_PREFIX: string := "inputs.params."

  /** The key of a parameter: `inputs.params.<name>`. */
  function ParamKey(name: string): (key: string)
    ensures |key| == |PARAM_PREFIX| + |name| && key[..|PARAM_PREFIX|] == PARAM_PREFIX && key[|PARAM_PREFIX|..] == name
  {
    PARAM_PREFIX + name
  }

  lemma ParamKeyInjective(a: string, b: string)
    ensures ParamKey(a) == ParamKey(b) ==> a == b
  {
  }

  /** The map after the first pass over the defaults. */
  function DefaultReplacements(defaults: seq<TaskParam>): (m: Replacements)
    decreases |defaults|
  {
    if defaults == [] then map[]
    else
      var p := defaults[|defaults| - 1];
      var m := DefaultReplacements(defaults[..|defaults| - 1]);
      if p.default != "" then m[ParamKey(p.name) := p.default] else m
  }

  /** `base` after the second pass over the TaskRun's parameters. */
  function RunReplacements(base: Replacements, params: seq<Param>): (m: Replacements)
    decreases |params|
  {
    if params == [] then base
    else
      var p := params[|params| - 1];
      RunReplacements(base, params[..|params| - 1])[ParamKey(p.name) := p.value]
  }

  /** The map that ApplyParameters builds. */
  function ParamReplacements(defaults: seq<TaskParam>, params: seq<Param>): (m: Replacements)
  {
    RunReplacements(DefaultReplacements(defaults), params)
  }

  /** The names whose key the defaults pass enters: those with a non-empty default. */
  function DefaultNames(defaults: seq<TaskParam>): (names: set<string>)
  {
    set i | 0 <= i < |defaults| && defaults[i].default != "" :: defaults[i].name
  }

  function RunNames(params: seq<Param>): (names: set<string>)
  {
    set i | 0 <= i < |params| :: params[i].name
  }

  function ParamKeys(names: set<string>): (keys: set<string>)
  {
    set n | n in names :: ParamKey(n)
  }

  lemma {:induction false} DefaultReplacementsKeys(defaults: seq<TaskParam>)
    ensures DefaultReplacements(defaults).Keys == ParamKeys(DefaultNames(defaults))
    decreases |defaults|
  {
    if defaults != [] {
      var init := defaults[..|defaults| - 1];
      DefaultReplacementsKeys(init);
      var p := defaults[|defaults| - 1];
      if p.default != "" {
        assert DefaultNames(defaults) == DefaultNames(init) + {p.name} by {
          forall i | 0 <= i < |init| ensures init[i] == defaults[i] {}
        }
      } else {
        assert DefaultNames(defaults) == DefaultNames(init) by {
          forall i | 0 <= i < |init| ensures init[i] == defaults[i] {}
        }
      }
    }
  }

  lemma {:induction false} RunReplacementsKeys(base: Replacements, params: seq<Param>)
    ensures RunReplacements(base, params).Keys == base.Keys + ParamKeys(RunNames(params))
    decreases |params|
  {
    if params != [] {
      var init := params[..|params| - 1];
      RunReplacementsKeys(base, init);
      assert RunNames(params) == RunNames(init) + {params[|params| - 1].name} by {
        forall i | 0 <= i < |init| ensures init[i] == params[i] {}
      }
    }
  }

  /**
   * The key set is exactly `inputs.params.<n>` for every TaskRun parameter name n (even
   * one whose value is empty) and every name with a non-empty default.
   */
  lemma ParamReplacementsKeys(defaults: seq<TaskParam>, params: seq<Param>)
    ensures ParamReplacements(defaults, params).Keys == ParamKeys(RunNames(params) + DefaultNames(defaults))
  {
    DefaultReplacementsKeys(defaults);
    RunReplacementsKeys(DefaultReplacements(defaults), params);
  }

  lemma {:induction false} RunLastWins(base: Replacements, params: seq<Param>, i: nat)
    requires i < |params|
    requires forall j :: i < j < |params| ==> params[j].name != params[i].name
    ensures ParamKey(params[i].name) in RunReplacements(base, params)
    ensures RunReplacements(base, params)[ParamKey(params[i].name)] == params[i].value
    decreases |params|
  {
    var last := |params| - 1;
    if i < last {
      var init := params[..last];
      RunLastWins(base, init, i);
      ParamKeyInjective(params[last].name, params[i].name);
    }
  }

  /**
   * A TaskRun value wins over any default of the same name, and among TaskRun values
   * of one name the last wins; an empty TaskRun value is entered like any other.
   */
  lemma RunValueWins(defaults: seq<TaskParam>, params: seq<Param>, i: nat)
    requires i < |params|
    requires forall j :: i < j < |params| ==> params[j].name != params[i].name
    ensures ParamKey(params[i].name) in ParamReplacements(defaults, params)
    ensures ParamReplacements(defaults, params)[ParamKey(params[i].name)] == params[i].value
  {
    RunLastWins(DefaultReplacements(defaults), params, i);
  }

  lemma {:induction false} RunKeepsOthers(base: Replacements, params: seq<Param>, n: string)
    requires forall j :: 0 <= j < |params| ==> params[j].name != n
    ensures ParamKey(n) in RunReplacements(base, params) <==> ParamKey(n) in base
    ensures ParamKey(n) in base ==> RunReplacements(base, params)[ParamKey(n)] == base[ParamKey(n)]
    decreases |params|
  {
    if params != [] {
      RunKeepsOthers(base, params[..|params| - 1], n);
      ParamKeyInjective(params[|params| - 1].name, n);
    }
  }

  lemma {:induction false} DefaultLastNonEmptyWins(defaults: seq<TaskParam>, i: nat)
    requires i < |defaults| && defaults[i].default != ""
    requires forall j :: i < j < |defaults| && defaults[j].name == defaults[i].name ==> defaults[j].default == ""
    ensures ParamKey(defaults[i].name) in DefaultReplacements(defaults)
    ensures DefaultReplacements(defaults)[ParamKey(defaults[i].name)] == defaults[i].default
    decreases |defaults|
  {
    var last := |defaults| - 1;
    if i < last {
      DefaultLastNonEmptyWins(defaults[..last], i);
      ParamKeyInjective(defaults[last].name, defaults[i].name);
    }
  }

  /**
   * With no TaskRun parameter of its name, a non-empty default is used; a later default
   * of the same name overrides it only when it is non-empty.
   */
  lemma DefaultUsedWhenNotOverridden(defaults: seq<TaskParam>, params: seq<Param>, i: nat)
    requires i < |defaults| && defaults[i].default != ""
    requires forall j :: i < j < |defaults| && defaults[j].name == defaults[i].name ==> defaults[j].default == ""
    requires forall j :: 0 <= j < |params| ==> params[j].name != defaults[i].name
    ensures ParamKey(defaults[i].name) in ParamReplacements(defaults, params)
    ensures ParamReplacements(defaults, params)[ParamKey(defaults[i].name)] == defaults[i].default
  {
    DefaultLastNonEmptyWins(defaults, i);
    RunKeepsOthers(DefaultReplacements(defaults), params, defaults[i].name);
  }

  /** A name whose defaults are all empty and that no TaskRun parameter names has no key. */
  lemma EmptyDefaultOmitted(defaults: seq<TaskParam>, params: seq<Param>, n: string)
    requires forall j :: 0 <= j < |defaults| && defaults[j].name == n ==> defaults[j].default == ""
    requires forall j :: 0 <= j < |params| ==> params[j].name != n
    ensures ParamKey(n) !in ParamReplacements(defaults, params)
  {
    ParamReplacementsKeys(defaults, params);
  }

  // ---------------------------------------------------------------------------------------
  // Resources

  /** The key of an export: `<replacementStr>.resources.<name>.<k>`. */
  function ResourceKey(replacementStr: string, name: string, k: string): (key: string)
  {
    replacementStr + ".resources." + name + "." + k
  }

  /** Every exported pair has its key in `m`. */
  ghost predicate CoversExports(resolved: map<string, Replacements>, replacementStr: string, m: Replacements)
  {
    forall name, k :: name in resolved && k in resolved[name] ==> ResourceKey(replacementStr, name, k) in m
  }

  /** Every key of `m` is the key of an exported pair and holds that pair's value. */
  ghost predicate KeysFromExports(resolved: map<string, Replacements>, replacementStr: string, m: Replacements)
  {
    forall key :: key in m ==>
      exists name, k :: name in resolved && k in resolved[name]
        && key == ResourceKey(replacementStr, name, k) && m[key] == resolved[name][k]
  }

  /** No two distinct exported pairs share a key. */
  ghost predicate CollisionFree(resolved: map<string, Replacements>, replacementStr: string)
  {
    forall n1, k1, n2, k2 ::
      n1 in resolved && k1 in resolved[n1] && n2 in resolved && k2 in resolved[n2]
      && ResourceKey(replacementStr, n1, k1) == ResourceKey(replacementStr, n2, k2)
      ==> n1 == n2 && k1 == k2
  }

  /**
   * When no two exports share a key, a map built as ApplyResources builds it holds each
   * export's own value under its key, whatever order the resources were visited in.
   */
  lemma ExportedValueWhenCollisionFree(
    resolved: map<string, Replacements>, replacementStr: string, m: Replacements, name: string, k: string)
    requires CoversExports(resolved, replacementStr, m) && KeysFromExports(resolved, replacementStr, m)
    requires CollisionFree(resolved, replacementStr)
    requires name in resolved && k in resolved[name]
    ensures ResourceKey(replacementStr, name, k) in m
    ensures m[ResourceKey(replacementStr, name, k)] == resolved[name][k]
  {
    var key := ResourceKey(replacementStr, name, k);
    var n2, k2 :| n2 in resolved && k2 in resolved[n2] && key == ResourceKey(replacementStr, n2, k2) && m[key] == resolved[n2][k2];
  }

  /** The map of the exports when no two of them share a key. */
  function ResourceReplacements(resolved: map<string, Replacements>, replacementStr: string): (m: Replacements)
    requires CollisionFree(resolved, replacementStr)
  {
    map name, k | name in resolved && k in resolved[name] :: ResourceKey(replacementStr, name, k) := resolved[name][k]
  }

  /** Each export's key holds its value, and every key is an export's key. */
  lemma ResourceReplacementsEntries(resolved: map<string, Replacements>, replacementStr: string)
    requires CollisionFree(resolved, replacementStr)
    ensures forall name, k :: name in resolved && k in resolved[name] ==>
      && ResourceKey(replacementStr, name, k) in ResourceReplacements(resolved, replacementStr)
      && ResourceReplacements(resolved, replacementStr)[ResourceKey(replacementStr, name, k)] == resolved[name][k]
    ensures forall key :: key in ResourceReplacements(resolved, replacementStr) ==>
      exists name, k :: name in resolved && k in resolved[name] && key == ResourceKey(replacementStr, name, k)
  {
  }

  /**
   * When no two exports share a key, every map built as ApplyResources builds it, in
   * whatever order, is the same map.
   */
  lemma ResourceMapDetermined(resolved: map<string, Replacements>, replacementStr: string, m: Replacements)
    requires CoversExports(resolved, replacementStr, m) && KeysFromExports(resolved, replacementStr, m)
    requires CollisionFree(resolved, replacementStr)
    ensures m == ResourceReplacements(resolved, replacementStr)
  {
    var r := ResourceReplacements(resolved, replacementStr);
    ResourceReplacementsEntries(resolved, replacementStr);
    forall key | key in m ensures key in r && r[key] == m[key] {
      var n, k :| n in resolved && k in resolved[n] && key == ResourceKey(replacementStr, n, k) && m[key] == resolved[n][k];
    }
    forall key | key in r ensures key in m {
      var n, k :| n in resolved && k in resolved[n] && key == ResourceKey(replacementStr, n, k);
    }
    MapsEqual(m, r);
  }

  lemma MapsEqual(a: Replacements, b: Replacements)
    requires forall key :: key in a <==> key in b
    requires forall key :: key in a ==> a[key] == b[key]
    ensures a == b
  {
  }

  /**
   * Keys can collide: a resource name holding a dot is enough. Then the export visited
   * last decides the value: two different maps both meet everything the building loop
   * promises, one for each visiting order.
   */
  lemma KeysCanCollide()
    ensures ResourceKey("inputs", "a.b", "c") == ResourceKey("inputs", "a", "b.c")
    ensures var resolved := map["a.b" := map["c" := "x"], "a" := map["b.c" := "y"]];
      var key := ResourceKey("inputs", "a.b", "c");
      && !CollisionFree(resolved, "inputs")
      && CoversExports(resolved, "inputs", map[key := "x"]) && KeysFromExports(resolved, "inputs", map[key := "x"])
      && CoversExports(resolved, "inputs", map[key := "y"]) && KeysFromExports(resolved, "inputs", map[key := "y"])
      && map[key := "x"] != map[key := "y"]
  {
    var resolved := map["a.b" := map["c" := "x"], "a" := map["b.c" := "y"]];
    var key := ResourceKey("inputs", "a.b", "c");
    assert key == ResourceKey("inputs", "a", "b.c");
    var m1, m2 := map[key := "x"], map[key := "y"];
    assert "a.b" in resolved && "c" in resolved["a.b"] && resolved["a.b"]["c"] == "x";
    assert "a" in resolved && "b.c" in resolved["a"] && resolved["a"]["b.c"] == "y";
    assert "a.b" != "a";
    forall name, k | name in resolved && k in resolved[name]
      ensures ResourceKey("inputs", name, k) == key
    {
      if name == "a.b" {
        assert resolved[name] == map["c" := "x"] && k == "c";
      } else {
        assert name == "a" && resolved[name] == map["b.c" := "y"] && k == "b.c";
      }
    }
    assert CoversExports(resolved, "inputs", m1);
    assert CoversExports(resolved, "inputs", m2);
    forall k | k in m1
      ensures exists name, k' ::
                name in resolved && k' in resolved[name]
                && k == ResourceKey("inputs", name, k') && m1[k] == resolved[name][k']
    {
      assert k == ResourceKey("inputs", "a.b", "c") && m1[k] == resolved["a.b"]["c"];
    }
    forall k | k in m2
      ensures exists name, k' ::
                name in resolved && k' in resolved[name]
                && k == ResourceKey("inputs", name, k') && m2[k] == resolved[name][k']
    {
      assert k == ResourceKey("inputs", "a", "b.c") && m2[k] == resolved["a"]["b.c"];
    }
    assert m1[key] != m2[key];
  }

  lemma CharOfJoined(n: string, k: string, i: nat)
    requires i <= |n|
    ensures (n + "." + k)[i] == if i < |n| then n[i] else '.'
  {
  }

  lemma {:induction false} DotFreeSplit(n1: string, k1: string, n2: string, k2: string)
    requires '.' !in n1 && '.' !in n2
    requires n1 + "." + k1 == n2 + "." + k2
    ensures n1 == n2 && k1 == k2
  {
    var s := n1 + "." + k1;
    var shorter := if |n1| < |n2| then |n1| else |n2|;
    CharOfJoined(n1, k1, shorter);
    CharOfJoined(n2, k2, shorter);
    if |n1| != |n2| {
      assert false;
    }
    assert n1 == s[..|n1|] == n2;
    var a1, a2 := n1 + ".", n2 + ".";
    assert s == a1 + k1 == a2 + k2;
    assert k1 == s[|a1|..] == k2;
  }

  /** Resource names without a dot never make two exports collide. */
  lemma DotFreeNamesCollisionFree(resolved: map<string, Replacements>, replacementStr: string)
    requires forall name :: name in resolved ==> '.' !in name
    ensures CollisionFree(resolved, replacementStr)
  {
    var pre := replacementStr + ".resources.";
    forall n1, k1, n2, k2 |
      n1 in resolved && k1 in resolved[n1] && n2 in resolved && k2 in resolved[n2]
      && ResourceKey(replacementStr, n1, k1) == ResourceKey(replacementStr, n2, k2)
      ensures n1 == n2 && k1 == k2
    {
      var s1, s2 := n1 + "." + k1, n2 + "." + k2;
      assert ResourceKey(replacementStr, n1, k1) == pre + s1;
      assert ResourceKey(replacementStr, n2, k2) == pre + s2;
      assert s1 == (pre + s1)[|pre|..];
      assert s2 == (pre + s2)[|pre|..];
      DotFreeSplit(n1, k1, n2, k2);
    }
  }
}
