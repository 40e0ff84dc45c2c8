/**
 Normalisation of a plan (`parseTerraformPlan`, src/utils/parsePlan.ts):
 one `ResourceNode` per entry of `resource_changes`, in input order, and
 per-action counters.

 A node's dependencies are looked up in the dependency map under the
 configuration address `<type>.<name>` (`data.<type>.<name>` for a data
 source). The change's module address plays no part in the key, so a
 resource inside a module is looked up under its bare address, not under the
 `module.<name>.` key the dependency map stores it with.
 */
module Normalize {
  import opened Collections
  import opened Text
  import opened Json
  import opened Terraform
  import opened PrimaryActions
  import opened Dependencies

  /** `plan.configuration?.root_module`. */
  function RootModuleOf(plan: TerraformPlan): Option<ModuleConfiguration> {
    if plan.configuration.Some? then plan.configuration.value.rootModule else None
  }

  /** The key a change's dependencies are looked up under. */
  function ConfigAddress(c: ResourceChange): string {
    if c.mode == Data then "data." + c.resourceType + "." + c.name
    else c.resourceType + "." + c.name
  }

  /** `dependencyMap.get(key) || []`. */
  function LookupDeps(deps: DependencyMap, key: string): seq<string> {
    if key in deps then deps[key] else []
  }

  /** The number of nodes shown under action `a`. */
  function CountOf(nodes: seq<ResourceNode>, a: Action): (k: nat)
    ensures k <= |nodes|
  {
    if nodes == [] then 0
    else CountOf(nodes[..|nodes| - 1], a) + (if nodes[|nodes| - 1].action == a then 1 else 0)
  }

  /** The counters a list of nodes gives. */
  function SummaryOf(nodes: seq<ResourceNode>): Summary {
    Summary(CountOf(nodes, Create), CountOf(nodes, Update), CountOf(nodes, Delete),
            CountOf(nodes, NoOp), CountOf(nodes, Read))
  }

  function Total(s: Summary): nat {
    s.create + s.update + s.delete + s.noOp + s.read
  }

  /**
   `parseTerraformPlan(plan)`: exactly one node per change, in order, each
   carrying the change's fields, its primary action and the dependencies
   found under its configuration address; the counters count the nodes'
   actions.
   */
  method ParseTerraformPlan(plan: TerraformPlan) returns (parsed: ParsedPlan)
    ensures parsed.terraformVersion == plan.terraformVersion
    ensures |parsed.resources| == |ChangesOf(plan)|
    ensures forall i :: 0 <= i < |ChangesOf(plan)| ==>
      Carries(ChangesOf(plan)[i], DependencyMapOf(RootModuleOf(plan)), parsed.resources[i])
    ensures parsed.summary == SummaryOf(parsed.resources)
    ensures plan.resourceChanges.None? ==> parsed.resources == [] && parsed.summary == Summary(0, 0, 0, 0, 0)
  {
    var resources: seq<ResourceNode> := [];
    var summary := Summary(0, 0, 0, 0, 0);
    var dependencyMap := ExtractDependencies(RootModuleOf(plan));
    if plan.resourceChanges.Some? {
      var changes := plan.resourceChanges.value;
      for i := 0 to |changes|
        invariant |resources| == i
        invariant forall k :: 0 <= k < i ==> Carries(changes[k], dependencyMap, resources[k])
        invariant summary == SummaryOf(resources)
      {
        var change := changes[i];
        var action := PrimaryAction(change.change.actions);
        ghost var previous := summary;
        match action {
          case Create => summary := summary.(create := summary.create + 1);
          case Update => summary := summary.(update := summary.update + 1);
          case Delete => summary := summary.(delete := summary.delete + 1);
          case Read => summary := summary.(read := summary.read + 1);
          case _ => summary := summary.(noOp := summary.noOp + 1);
        }
        assert summary == Tally(previous, action);
        var resourceAddress := if change.mode == Data
          then "data." + change.resourceType + "." + change.name
          else change.resourceType + "." + change.name;
        var dependencies := if resourceAddress in dependencyMap then dependencyMap[resourceAddress] else [];
        var node := ResourceNode(change.address, change.address, change.resourceType, change.name,
                                 change.providerName, action, change.moduleAddress,
                                 change.change.before, change.change.after, dependencies);
        ParseStep(changes, i, dependencyMap, resources, node);
        CountStep(resources, node, previous);
        resources := resources + [node];
      }
    }
    parsed := ParsedPlan(plan.terraformVersion, resources, summary);
  }

  /**
   Node `n` carries change `c`'s address (as id and address), type, name,
   provider, module address, before and after values, its primary action and
   the dependencies found under its configuration address.
   */
  predicate Carries(c: ResourceChange, deps: DependencyMap, n: ResourceNode) {
    && n.id == c.address && n.address == c.address
    && n.resourceType == c.resourceType && n.name == c.name && n.provider == c.providerName
    && n.action == PrimaryAction(c.change.actions)
    && n.moduleAddress == c.moduleAddress
    && n.before == c.change.before && n.after == c.change.after
    && n.dependencies == LookupDeps(deps, ConfigAddress(c))
  }

  /** One more change parsed: the new node carries it and its action's counter goes up by one. */
  lemma ParseStep(changes: seq<ResourceChange>, i: nat, deps: DependencyMap,
                  nodes: seq<ResourceNode>, n: ResourceNode)
    requires i < |changes| && |nodes| == i && forall k :: 0 <= k < i ==> Carries(changes[k], deps, nodes[k])
    requires Carries(changes[i], deps, n)
    ensures forall k :: 0 <= k < i + 1 ==> Carries(changes[k], deps, (nodes + [n])[k])
  {
  }

  /** The counter of action `a` goes up by one. */
  function Tally(s: Summary, a: Action): Summary {
    match a
    case Create => s.(create := s.create + 1)
    case Update => s.(update := s.update + 1)
    case Delete => s.(delete := s.delete + 1)
    case Read => s.(read := s.read + 1)
    case NoOp => s.(noOp := s.noOp + 1)
  }

  /** Appending a node tallies its action. */
  lemma CountStep(nodes: seq<ResourceNode>, n: ResourceNode, s: Summary)
    requires s == SummaryOf(nodes)
    ensures SummaryOf(nodes + [n]) == Tally(s, n.action)
  {
    CountSnoc(nodes, n);
  }

  /** Appending a node raises the counter of its own action by one and leaves the others. */
  lemma CountSnoc(nodes: seq<ResourceNode>, n: ResourceNode)
    ensures forall a :: CountOf(nodes + [n], a) == CountOf(nodes, a) + (if n.action == a then 1 else 0)
  {
    assert (nodes + [n])[..|nodes|] == nodes;
  }

  /** The five counters sum to the number of nodes. */
  lemma {:induction false} SummaryTotal(nodes: seq<ResourceNode>)
    ensures Total(SummaryOf(nodes)) == |nodes|
  {
    if nodes != [] {
      var init := nodes[..|nodes| - 1];
      SummaryTotal(init);
      assert nodes == init + [nodes[|nodes| - 1]];
      CountSnoc(init, nodes[|nodes| - 1]);
    }
  }

  /** Two changes that differ only in their module address get the same dependencies. */
  lemma ModuleAddressIgnored(deps: DependencyMap, c1: ResourceChange, c2: ResourceChange)
    requires c1.mode == c2.mode && c1.resourceType == c2.resourceType && c1.name == c2.name
    ensures LookupDeps(deps, ConfigAddress(c1)) == LookupDeps(deps, ConfigAddress(c2))
  {
  }

  /**
   A resource declared only inside module call `m1` is stored under
   `module.m1.aws_instance.foo`, but its change is looked up under
   `aws_instance.foo` and so gets no dependencies.
   */
  lemma ModuleResourceGetsNoDependencies(r: ConfigurationResource, c: ResourceChange)
    requires r.address == "aws_instance.foo"
    requires c.mode == Managed && c.resourceType == "aws_instance" && c.name == "foo"
    ensures var root := ModuleConfiguration([], [ModuleCall("m1", "./m1", Some(ModuleConfiguration([r], [])))]);
            var deps := DependencyMapOf(Some(root));
            "module.m1.aws_instance.foo" in deps && LookupDeps(deps, ConfigAddress(c)) == []
  {
    var root := ModuleConfiguration([], [ModuleCall("m1", "./m1", Some(ModuleConfiguration([r], [])))]);
    var key := "module.m1.aws_instance.foo";
    OneModuleEntry(r);
    var es := ModuleEntries(root, "");
    KeysAreSetAddresses(es);
    assert (set i | 0 <= i < |es| :: es[i].0) == {key};
    assert ConfigAddress(c) == "aws_instance.foo";
    assert ConfigAddress(c) != key by {
      assert ConfigAddress(c)[0] != key[0];
    }
  }

  /** The walk of that configuration makes the one `set` call. */
  lemma OneModuleEntry(r: ConfigurationResource)
    requires r.address == "aws_instance.foo"
    ensures var root := ModuleConfiguration([], [ModuleCall("m1", "./m1", Some(ModuleConfiguration([r], [])))]);
            ModuleEntries(root, "") == [("module.m1.aws_instance.foo", ResourceDeps(r))]
  {
    var inner := ModuleConfiguration([r], []);
    var root := ModuleConfiguration([], [ModuleCall("m1", "./m1", Some(inner))]);
    var key := "module.m1.aws_instance.foo";
    LeafModuleEntry(r, "module.m1");
    assert Qualify("module.m1", r.address) == key;
    assert ChildPrefix("", "m1") == "module.m1";
    assert CallEntries(root, "", 1) == CallEntries(root, "", 0) + ModuleEntries(inner, "module.m1");
    assert ResourceEntries(root.resources, "") == [];
  }

  /** A module body with one resource and no calls makes one `set` call. */
  lemma LeafModuleEntry(r: ConfigurationResource, prefix: string)
    ensures ModuleEntries(ModuleConfiguration([r], []), prefix) == [(Qualify(prefix, r.address), ResourceDeps(r))]
  {
    assert CallEntries(ModuleConfiguration([r], []), prefix, 0) == [];
  }
}
