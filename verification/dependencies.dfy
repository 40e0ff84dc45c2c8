/**
 The dependency map built from the configuration tree
 (`extractDependencies` with its inner `processResources` and
 `processModule`, src/utils/parsePlan.ts).

 The walk visits a module's declared resources, then its module calls in
 document order, recursing into each call's body with the prefix extended
 by `module.<call name>`. Each declared resource sets the map entry for its
 qualified address to its `depends_on` entries followed by the references
 found in its expressions. The map is only ever read by key, so it is a
 Dafny `map`; the walk itself is described by the ordered list of the
 `set` calls it makes (`ModuleEntries`), applied left to right.
 */
module Dependencies {
  import opened Collections
  import opened Text
  import opened Json
  import opened Terraform
  import opened References

  /** One `deps.set(address, resourceDeps)` call. */
  type Entry = (string, seq<string>)

  type DependencyMap = map<string, seq<string>>

  /** The address of a resource declared under `prefix` (the bare address at the root). */
  function Qualify(prefix: string, address: string): string {
    if prefix == "" then address else prefix + "." + address
  }

  /** The prefix for the body of module call `name` made under `prefix`. */
  function ChildPrefix(prefix: string, name: string): string {
    if prefix == "" then "module." + name else prefix + ".module." + name
  }

  /** What one declared resource depends on: `depends_on`, then the expression references. */
  function ResourceDeps(r: ConfigurationResource): seq<string> {
    r.dependsOn.GetOr([]) + (if r.expressions.Some? then Refs(JObj(r.expressions.value)) else [])
  }

  /** The `set` calls made by `processResources(resources, prefix)`. */
  function ResourceEntries(resources: seq<ConfigurationResource>, prefix: string): (es: seq<Entry>)
    ensures |es| == |resources|
    ensures forall i :: 0 <= i < |resources| ==>
      es[i] == (Qualify(prefix, resources[i].address), ResourceDeps(resources[i]))
  {
    if resources == [] then []
    else
      var last := resources[|resources| - 1];
      ResourceEntries(resources[..|resources| - 1], prefix)
        + [(Qualify(prefix, last.address), ResourceDeps(last))]
  }

  /** The `set` calls made by `processModule(m, prefix)`, in order. */
  function ModuleEntries(m: ModuleConfiguration, prefix: string): seq<Entry>
    decreases m
  {
    ResourceEntries(m.resources, prefix) + CallEntries(m, prefix, |m.moduleCalls|)
  }

  /** The `set` calls made while processing the first `n` module calls of `owner`. */
  function CallEntries(owner: ModuleConfiguration, prefix: string, n: nat): seq<Entry>
    requires n <= |owner.moduleCalls|
    decreases owner, n
  {
    if n == 0 then []
    else
      var call := owner.moduleCalls[n - 1];
      CallEntries(owner, prefix, n - 1)
        + (if call.body.Some? then ModuleEntries(call.body.value, ChildPrefix(prefix, call.name)) else [])
  }

  /** `deps.set(...)` for each entry, left to right. */
  function Apply(deps: DependencyMap, es: seq<Entry>): DependencyMap
  {
    if es == [] then deps
    else
      var last := es[|es| - 1];
      Apply(deps, es[..|es| - 1])[last.0 := last.1]
  }

  /** The map `extractDependencies(config)` returns. */
  function DependencyMapOf(config: Option<ModuleConfiguration>): DependencyMap {
    if config.None? then map[] else Apply(map[], ModuleEntries(config.value, ""))
  }

  lemma {:induction false} ApplyAppend(deps: DependencyMap, a: seq<Entry>, b: seq<Entry>)
    ensures Apply(deps, a + b) == Apply(Apply(deps, a), b)
    decreases |b|
  {
    if b == [] {
      assert a + b == a;
    } else {
      var bi := b[..|b| - 1];
      ApplyAppend(deps, a, bi);
      assert (a + b)[..|a + b| - 1] == a + bi;
    }
  }

  /** `extractDependencies(config)`. */
  method ExtractDependencies(config: Option<ModuleConfiguration>) returns (deps: DependencyMap)
    ensures deps == DependencyMapOf(config)
    ensures config.None? ==> deps == map[]
  {
    deps := ProcessModule(config, "", map[]);
  }

  /** `processModule(module, prefix)`, applied to the map built so far. */
  method ProcessModule(config: Option<ModuleConfiguration>, prefix: string, deps0: DependencyMap)
    returns (deps: DependencyMap)
    ensures config.None? ==> deps == deps0
    ensures config.Some? ==> deps == Apply(deps0, ModuleEntries(config.value, prefix))
    decreases config
  {
    if config.None? {
      return deps0;
    }
    var m := config.value;
    deps := ProcessResources(m.resources, prefix, deps0);
    ghost var own := ResourceEntries(m.resources, prefix);
    var calls := m.moduleCalls;
    assert own + CallEntries(m, prefix, 0) == own;
    for i := 0 to |calls|
      invariant deps == Apply(deps0, own + CallEntries(m, prefix, i))
    {
      var name := calls[i].name;
      var newPrefix := if prefix != "" then prefix + ".module." + name else "module." + name;
      deps := ProcessModule(calls[i].body, newPrefix, deps);
      CallEntriesStep(m, prefix, i, deps0, own);
    }
  }

  /** One more module call processed: its body's entries are applied after the earlier ones. */
  lemma CallEntriesStep(m: ModuleConfiguration, prefix: string, i: nat, deps0: DependencyMap, own: seq<Entry>)
    requires i < |m.moduleCalls|
    ensures var call := m.moduleCalls[i];
            var added := if call.body.Some? then ModuleEntries(call.body.value, ChildPrefix(prefix, call.name)) else [];
            Apply(deps0, own + CallEntries(m, prefix, i + 1)) == Apply(Apply(deps0, own + CallEntries(m, prefix, i)), added)
  {
    var call := m.moduleCalls[i];
    var added := if call.body.Some? then ModuleEntries(call.body.value, ChildPrefix(prefix, call.name)) else [];
    assert own + CallEntries(m, prefix, i + 1) == (own + CallEntries(m, prefix, i)) + added;
    ApplyAppend(deps0, own + CallEntries(m, prefix, i), added);
  }

  /** `processResources(resources, prefix)`, applied to the map built so far. */
  method ProcessResources(rs: seq<ConfigurationResource>, prefix: string, deps0: DependencyMap)
    returns (deps: DependencyMap)
    ensures deps == Apply(deps0, ResourceEntries(rs, prefix))
  {
    deps := deps0;
    for i := 0 to |rs|
      invariant deps == Apply(deps0, ResourceEntries(rs[..i], prefix))
    {
      var address := Qualify(prefix, rs[i].address);
      var resourceDeps := CollectResourceDeps(rs[i]);
      ApplySnoc(deps0, ResourceEntries(rs[..i], prefix), (address, resourceDeps));
      deps := deps[address := resourceDeps];
      ResourceEntriesSnoc(rs, i, prefix);
    }
    assert rs[..|rs|] == rs;
  }

  /** The body of the loop in `processResources`: the list pushed for one resource. */
  method CollectResourceDeps(resource: ConfigurationResource) returns (resourceDeps: seq<string>)
    ensures resourceDeps == ResourceDeps(resource)
  {
    resourceDeps := [];
    if resource.dependsOn.Some? {
      resourceDeps := resourceDeps + resource.dependsOn.value;
    }
    if resource.expressions.Some? {
      var refs := ExtractReferencesFromExpressions(resource.expressions.value);
      resourceDeps := resourceDeps + refs;
    }
  }

  lemma ApplySnoc(deps: DependencyMap, es: seq<Entry>, e: Entry)
    ensures Apply(deps, es + [e]) == Apply(deps, es)[e.0 := e.1]
  {
    assert (es + [e])[..|es|] == es;
  }

  lemma ResourceEntriesSnoc(rs: seq<ConfigurationResource>, i: nat, prefix: string)
    requires i < |rs|
    ensures ResourceEntries(rs[..i + 1], prefix)
         == ResourceEntries(rs[..i], prefix) + [(Qualify(prefix, rs[i].address), ResourceDeps(rs[i]))]
  {
    assert rs[..i + 1][..i] == rs[..i];
  }

  // ----- Properties of the map -----

  /** The map's keys are exactly the addresses that were set. */
  lemma {:induction false} KeysAreSetAddresses(es: seq<Entry>)
    ensures Apply(map[], es).Keys == set i | 0 <= i < |es| :: es[i].0
  {
    if es != [] {
      var init := es[..|es| - 1];
      KeysAreSetAddresses(init);
      assert forall i :: 0 <= i < |init| ==> init[i] == es[i];
    }
  }

  /** When an address is set more than once, the last value set is the one kept. */
  lemma {:induction false} LastDeclarationWins(es: seq<Entry>, i: nat)
    requires i < |es|
    requires forall j :: i < j < |es| ==> es[j].0 != es[i].0
    ensures es[i].0 in Apply(map[], es) && Apply(map[], es)[es[i].0] == es[i].1
  {
    if i < |es| - 1 {
      LastDeclarationWins(es[..|es| - 1], i);
    }
  }

  /** `module.<name>` for each call of `path`, in order. */
  function ModuleSegments(path: seq<string>): (segs: seq<string>)
    ensures |segs| == |path|
  {
    if path == [] then [] else ModuleSegments(path[..|path| - 1]) + ["module." + path[|path| - 1]]
  }

  /** The address prefix of a module reached through the calls `path`, root first:
      the `.`-join of `module.<name>` for each call. */
  function PathPrefix(path: seq<string>): string {
    Join(ModuleSegments(path), '.')
  }

  /** Extending the prefix by one call appends `.module.<name>` (`module.<name>` at the root). */
  lemma PathPrefixExtend(path: seq<string>, name: string)
    ensures ChildPrefix(PathPrefix(path), name) == PathPrefix(path + [name])
  {
    var segs := ModuleSegments(path);
    assert (path + [name])[..|path|] == path;
    assert ModuleSegments(path + [name]) == segs + ["module." + name];
    if path != [] {
      JoinAppend(segs, ["module." + name], '.');
      ModuleSegmentsFirst(path);
      JoinNonEmpty(segs, '.');
    }
  }

  lemma {:induction false} ModuleSegmentsFirst(path: seq<string>)
    requires path != []
    ensures ModuleSegments(path)[0] == "module." + path[0]
  {
    if |path| > 1 {
      ModuleSegmentsFirst(path[..|path| - 1]);
    }
  }

  /** A join whose first part is non-empty is non-empty. */
  lemma JoinNonEmpty(parts: seq<string>, sep: char)
    requires |parts| >= 1 && parts[0] != ""
    ensures Join(parts, sep) != ""
  {
    if |parts| > 1 {
      assert Join(parts, sep) == parts[0] + [sep] + Join(parts[1..], sep);
    }
  }

  /** Resource `r` is declared in the module reached from `m` through the module calls `path`. */
  ghost predicate DeclaredAt(m: ModuleConfiguration, path: seq<string>, r: ConfigurationResource)
    decreases |path|
  {
    if path == [] then
      r in m.resources
    else
      exists i :: 0 <= i < |m.moduleCalls| &&
        m.moduleCalls[i].name == path[0] &&
        m.moduleCalls[i].body.Some? &&
        DeclaredAt(m.moduleCalls[i].body.value, path[1..], r)
  }

  lemma {:induction false} CallEntriesInclude(owner: ModuleConfiguration, prefix: string, n: nat, i: nat, e: Entry)
    requires i < n <= |owner.moduleCalls|
    requires owner.moduleCalls[i].body.Some?
    requires e in ModuleEntries(owner.moduleCalls[i].body.value, ChildPrefix(prefix, owner.moduleCalls[i].name))
    ensures e in CallEntries(owner, prefix, n)
    decreases n
  {
    if i < n - 1 {
      CallEntriesInclude(owner, prefix, n - 1, i, e);
    }
  }

  /**
   A resource declared through module calls `path` is set under
   `<prefix of path>.<address>`, e.g. `module.m1.module.m2.<address>`,
   with its own dependency list.
   */
  lemma {:induction false} DeclaredResourceIsSet(m: ModuleConfiguration, base: seq<string>, path: seq<string>, r: ConfigurationResource)
    requires DeclaredAt(m, path, r)
    ensures (Qualify(PathPrefix(base + path), r.address), ResourceDeps(r)) in ModuleEntries(m, PathPrefix(base))
    decreases |path|
  {
    var prefix := PathPrefix(base);
    var e := (Qualify(PathPrefix(base + path), r.address), ResourceDeps(r));
    if path == [] {
      assert base + path == base;
      ResourceEntriesInclude(m.resources, prefix, r);
    } else {
      var calls := m.moduleCalls;
      var i :| 0 <= i < |calls| && calls[i].name == path[0] && calls[i].body.Some? &&
        DeclaredAt(calls[i].body.value, path[1..], r);
      var childBase := base + [path[0]];
      DeclaredResourceIsSet(calls[i].body.value, childBase, path[1..], r);
      HeadTail(path);
      AppendAssoc(base, [path[0]], path[1..]);
      PathPrefixExtend(base, path[0]);
      IncludedViaCall(m, prefix, i, e);
    }
  }

  /** An entry set while processing the body of one call is set while processing the caller. */
  lemma IncludedViaCall(m: ModuleConfiguration, prefix: string, i: nat, e: Entry)
    requires i < |m.moduleCalls| && m.moduleCalls[i].body.Some?
    requires e in ModuleEntries(m.moduleCalls[i].body.value, ChildPrefix(prefix, m.moduleCalls[i].name))
    ensures e in ModuleEntries(m, prefix)
  {
    CallEntriesInclude(m, prefix, |m.moduleCalls|, i, e);
  }

  /** Every declared resource of a module is set under the module's prefix. */
  lemma ResourceEntriesInclude(rs: seq<ConfigurationResource>, prefix: string, r: ConfigurationResource)
    requires r in rs
    ensures (Qualify(prefix, r.address), ResourceDeps(r)) in ResourceEntries(rs, prefix)
  {
    var k :| 0 <= k < |rs| && rs[k] == r;
    assert ResourceEntries(rs, prefix)[k] == (Qualify(prefix, r.address), ResourceDeps(r));
  }

  /** Every set address ends up as a key of the map. */
  lemma SetEntryIsKey(es: seq<Entry>, e: Entry)
    requires e in es
    ensures e.0 in Apply(map[], es)
  {
    KeysAreSetAddresses(es);
    var i :| 0 <= i < |es| && es[i] == e;
  }

  /** A root module calling `m1`, whose body calls `m2`, whose body declares `r`. */
  function NestedConfig(r: ConfigurationResource): ModuleConfiguration {
    var inner := ModuleConfiguration([r], []);
    var middle := ModuleConfiguration([], [ModuleCall("m2", "./m2", Some(inner))]);
    ModuleConfiguration([], [ModuleCall("m1", "./m1", Some(middle))])
  }

  /** A resource declared inside `m2` inside `m1` is keyed `module.m1.module.m2.<address>`. */
  lemma NestedModuleKey(r: ConfigurationResource)
    requires r.address == "aws_instance.foo"
    ensures "module.m1.module.m2.aws_instance.foo" in DependencyMapOf(Some(NestedConfig(r)))
  {
    var root := NestedConfig(r);
    NestedDeclared(r);
    DeclaredResourceIsSet(root, [], ["m1", "m2"], r);
    assert [] + ["m1", "m2"] == ["m1", "m2"];
    NestedPrefix();
    assert PathPrefix([]) == "";
    NestedKey();
    SetEntryIsKey(ModuleEntries(root, ""), (Qualify("module.m1.module.m2", r.address), ResourceDeps(r)));
  }

  lemma NestedKey()
    ensures Qualify("module.m1.module.m2", "aws_instance.foo") == "module.m1.module.m2.aws_instance.foo"
  {
  }

  lemma NestedDeclared(r: ConfigurationResource)
    ensures DeclaredAt(NestedConfig(r), ["m1", "m2"], r)
  {
    var root := NestedConfig(r);
    var middle := root.moduleCalls[0].body.value;
    var inner := middle.moduleCalls[0].body.value;
    assert DeclaredAt(inner, [], r);
    assert DeclaredAt(middle, ["m2"], r) by {
      assert ["m2"][1..] == [];
      assert middle.moduleCalls[0].name == "m2";
    }
    assert ["m1", "m2"][1..] == ["m2"];
    assert root.moduleCalls[0].name == "m1";
  }

  lemma NestedPrefix()
    ensures PathPrefix(["m1", "m2"]) == "module.m1.module.m2"
  {
    var p1, p2 := ["m1"], ["m1", "m2"];
    assert p1[..|p1| - 1] == [] && p2[..|p2| - 1] == p1;
    assert ModuleSegments(p1) == ModuleSegments([]) + ["module." + "m1"];
    var none: seq<string> := [];
    assert ModuleSegments(none) == [];
    assert "module." + "m1" == "module.m1";
    assert ModuleSegments(p1) == ["module.m1"];
    var segs := ModuleSegments(p2);
    assert segs == ModuleSegments(p1) + ["module." + "m2"];
    assert "module." + "m2" == "module.m2";
    assert segs == ["module.m1", "module.m2"];
    assert segs[1..] == ["module.m2"];
    assert Join(segs, '.') == "module.m1" + ['.'] + Join(["module.m2"], '.');
  }
}
