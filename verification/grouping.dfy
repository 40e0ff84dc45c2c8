/**
 The provider → service → resource hierarchy that `toReactFlowElements`
 builds before laying anything out (src/utils/parsePlan.ts). Resources are
 grouped under their short provider name, then under their service; both
 levels keep the order in which their keys are first seen, and a group keeps
 its resources in input order.
 */
module Grouping {
  import opened Collections
  import opened Terraform
  import opened ServiceClassifier

  datatype ServiceGroup = ServiceGroup(name: string, resources: seq<ResourceNode>)
  datatype ProviderGroup = ProviderGroup(name: string, services: seq<ServiceGroup>)

  function ProviderKey(r: ResourceNode): string {
    ShortProviderName(r.provider)
  }

  function ServiceKey(r: ResourceNode): string {
    Classify(r.resourceType, r.provider).service
  }

  /** A resource with the two keys it is grouped under. */
  datatype Placed = Placed(provider: string, service: string, resource: ResourceNode)

  /** Each resource with its keys, in input order. */
  function Placements(rs: seq<ResourceNode>): (ps: seq<Placed>)
    ensures |ps| == |rs|
  {
    seq(|rs|, j requires 0 <= j < |rs| => Placed(ProviderKey(rs[j]), ServiceKey(rs[j]), rs[j]))
  }

  function ProviderKeys(ps: seq<Placed>): seq<string> {
    if ps == [] then [] else ProviderKeys(ps[..|ps| - 1]) + [ps[|ps| - 1].provider]
  }

  /** The service keys of the resources of provider `p`, in input order. */
  function ServiceKeys(ps: seq<Placed>, p: string): seq<string> {
    if ps == [] then []
    else
      var last := ps[|ps| - 1];
      ServiceKeys(ps[..|ps| - 1], p) + (if last.provider == p then [last.service] else [])
  }

  /** The resources of provider `p` and service `s`, in input order. */
  function Members(ps: seq<Placed>, p: string, s: string): seq<ResourceNode> {
    if ps == [] then []
    else
      var last := ps[|ps| - 1];
      Members(ps[..|ps| - 1], p, s) + (if last.provider == p && last.service == s then [last.resource] else [])
  }

  /** The service groups of provider `p` named `names`, in that order. */
  function ServiceGroups(ps: seq<Placed>, p: string, names: seq<string>): seq<ServiceGroup> {
    seq(|names|, i requires 0 <= i < |names| => ServiceGroup(names[i], Members(ps, p, names[i])))
  }

  /** The service groups of provider `p`: one per service, in first-seen order. */
  function ServicesOf(ps: seq<Placed>, p: string): seq<ServiceGroup> {
    ServiceGroups(ps, p, Dedup(ServiceKeys(ps, p)))
  }

  /** The provider groups named `names`, in that order. */
  function ProviderGroups(ps: seq<Placed>, names: seq<string>): seq<ProviderGroup> {
    seq(|names|, i requires 0 <= i < |names| => ProviderGroup(names[i], ServicesOf(ps, names[i])))
  }

  /** The hierarchy: one group per provider, in first-seen order. */
  function Hierarchy(ps: seq<Placed>): seq<ProviderGroup> {
    ProviderGroups(ps, Dedup(ProviderKeys(ps)))
  }

  function ServiceNames(gs: seq<ServiceGroup>): (names: seq<string>)
    ensures |names| == |gs| && forall i :: 0 <= i < |gs| ==> names[i] == gs[i].name
  {
    seq(|gs|, i requires 0 <= i < |gs| => gs[i].name)
  }

  function ProviderNames(h: seq<ProviderGroup>): (names: seq<string>)
    ensures |names| == |h| && forall i :: 0 <= i < |h| ==> names[i] == h[i].name
  {
    seq(|h|, i requires 0 <= i < |h| => h[i].name)
  }

  // ----- One step of the loop -----

  /** Push `r` onto service `s`, creating the service group when `s` is new. */
  function AddToService(gs: seq<ServiceGroup>, s: string, r: ResourceNode): seq<ServiceGroup> {
    match IndexOf(ServiceNames(gs), s)
    case Some(i) => gs[i := ServiceGroup(s, gs[i].resources + [r])]
    case None => gs + [ServiceGroup(s, [r])]
  }

  /** Push `r` under provider `p` and service `s`, creating groups that do not exist yet. */
  function AddResource(h: seq<ProviderGroup>, p: string, s: string, r: ResourceNode): seq<ProviderGroup> {
    match IndexOf(ProviderNames(h), p)
    case Some(i) => h[i := ProviderGroup(p, AddToService(h[i].services, s, r))]
    case None => h + [ProviderGroup(p, [ServiceGroup(s, [r])])]
  }

  /** The hierarchy-building loop at the start of `toReactFlowElements`. */
  method BuildHierarchy(rs: seq<ResourceNode>) returns (h: seq<ProviderGroup>)
    ensures h == Hierarchy(Placements(rs))
  {
    h := [];
    for i := 0 to |rs|
      invariant h == Hierarchy(Placements(rs[..i]))
    {
      var resource := rs[i];
      var providerKey := ShortProviderName(resource.provider);
      var service := ExtractServiceFromType(resource.resourceType, resource.provider);
      BuildStep(rs, i, h, providerKey, service.service);
      h := AddResource(h, providerKey, service.service, resource);
    }
    assert rs[..|rs|] == rs;
  }

  /** One turn of the loop adds the next resource under its two keys. */
  lemma BuildStep(rs: seq<ResourceNode>, i: nat, h: seq<ProviderGroup>, p: string, s: string)
    requires i < |rs| && h == Hierarchy(Placements(rs[..i]))
    requires p == ProviderKey(rs[i]) && s == ServiceKey(rs[i])
    ensures AddResource(h, p, s, rs[i]) == Hierarchy(Placements(rs[..i + 1]))
  {
    PlacementsSnoc(rs, i, Placed(p, s, rs[i]));
    HierarchySnoc(Placements(rs[..i]), Placed(p, s, rs[i]));
  }

  /** Placing one more resource appends its placement. */
  lemma PlacementsSnoc(rs: seq<ResourceNode>, i: nat, x: Placed)
    requires i < |rs| && x == Placed(ProviderKey(rs[i]), ServiceKey(rs[i]), rs[i])
    ensures Placements(rs[..i + 1]) == Placements(rs[..i]) + [x]
  {
    var a, b := Placements(rs[..i + 1]), Placements(rs[..i]) + [x];
    forall j | 0 <= j < i + 1
      ensures a[j] == b[j]
    {
      if j < i {
        assert rs[..i + 1][j] == rs[..i][j];
      }
    }
  }

  // ----- The loop computes the reference definition -----

  lemma ProviderKeysSnoc(ps: seq<Placed>, x: Placed)
    ensures ProviderKeys(ps + [x]) == ProviderKeys(ps) + [x.provider]
  {
    assert (ps + [x])[..|ps|] == ps;
  }

  lemma ServiceKeysSnoc(ps: seq<Placed>, x: Placed, p: string)
    ensures ServiceKeys(ps + [x], p) == ServiceKeys(ps, p) + (if x.provider == p then [x.service] else [])
  {
    assert (ps + [x])[..|ps|] == ps;
  }

  lemma MembersSnoc(ps: seq<Placed>, x: Placed, p: string, s: string)
    ensures Members(ps + [x], p, s) == Members(ps, p, s) + (if x.provider == p && x.service == s then [x.resource] else [])
  {
    assert (ps + [x])[..|ps|] == ps;
  }

  /** A provider with no resource has no services. */
  lemma {:induction false} NoServiceKeys(ps: seq<Placed>, p: string)
    requires p !in ProviderKeys(ps)
    ensures ServiceKeys(ps, p) == []
  {
    if ps != [] {
      var init := ps[..|ps| - 1];
      assert ProviderKeys(ps) == ProviderKeys(init) + [ps[|ps| - 1].provider];
      NoServiceKeys(init, p);
    }
  }

  /** A service that no resource of `p` names has no members. */
  lemma {:induction false} NoMembers(ps: seq<Placed>, p: string, s: string)
    requires s !in ServiceKeys(ps, p)
    ensures Members(ps, p, s) == []
  {
    if ps != [] {
      NoMembers(ps[..|ps| - 1], p, s);
    }
  }

  /** A resource of another provider leaves the service groups of `p` alone. */
  lemma ServicesOfOther(ps: seq<Placed>, x: Placed, p: string)
    requires x.provider != p
    ensures ServicesOf(ps + [x], p) == ServicesOf(ps, p)
  {
    ServiceKeysSnoc(ps, x, p);
    assert ServiceKeys(ps + [x], p) == ServiceKeys(ps, p);
    var before := ServicesOf(ps, p);
    var after := ServicesOf(ps + [x], p);
    forall i | 0 <= i < |after|
      ensures after[i] == before[i]
    {
      MembersSnoc(ps, x, p, after[i].name);
    }
  }

  /** A resource of a service already seen joins the end of that service's group. */
  lemma ServicesOfSeen(ps: seq<Placed>, x: Placed)
    requires x.service in ServiceKeys(ps, x.provider)
    ensures ServicesOf(ps + [x], x.provider) == AddToService(ServicesOf(ps, x.provider), x.service, x.resource)
  {
    var p, s := x.provider, x.service;
    ServiceKeysSnoc(ps, x, p);
    var d := Dedup(ServiceKeys(ps, p));
    DedupSnoc(ServiceKeys(ps, p), s);
    DedupSpec(ServiceKeys(ps, p));
    assert Dedup(ServiceKeys(ps + [x], p)) == d;
    var before := ServicesOf(ps, p);
    assert ServiceNames(before) == d;
    var k := IndexOf(d, s).value;
    ServiceGroupsSeen(ps, x, d, k);
  }

  /** With the names unchanged, only the group of the new resource's service changes: it gains the resource. */
  lemma ServiceGroupsSeen(ps: seq<Placed>, x: Placed, names: seq<string>, k: nat)
    requires k < |names| && names[k] == x.service && Distinct(names)
    ensures ServiceGroups(ps + [x], x.provider, names)
         == ServiceGroups(ps, x.provider, names)[k := ServiceGroup(x.service, Members(ps, x.provider, x.service) + [x.resource])]
  {
    var after := ServiceGroups(ps + [x], x.provider, names);
    var add := ServiceGroups(ps, x.provider, names)[k := ServiceGroup(x.service, Members(ps, x.provider, x.service) + [x.resource])];
    forall i | 0 <= i < |after|
      ensures after[i] == add[i]
    {
      MembersSnoc(ps, x, x.provider, names[i]);
    }
  }

  /** A resource of a new service opens a group of its own at the end. */
  lemma ServicesOfNew(ps: seq<Placed>, x: Placed)
    requires x.service !in ServiceKeys(ps, x.provider)
    ensures ServicesOf(ps + [x], x.provider)
         == ServicesOf(ps, x.provider) + [ServiceGroup(x.service, [x.resource])]
  {
    var p, s := x.provider, x.service;
    ServiceKeysSnoc(ps, x, p);
    var d := Dedup(ServiceKeys(ps, p));
    DedupSnoc(ServiceKeys(ps, p), s);
    DedupSpec(ServiceKeys(ps, p));
    assert Dedup(ServiceKeys(ps + [x], p)) == d + [s];
    NoMembers(ps, p, s);
    ServiceGroupsNew(ps, x, d);
  }

  /** A name not yet among `names` adds a group at the end; the others do not change. */
  lemma ServiceGroupsNew(ps: seq<Placed>, x: Placed, names: seq<string>)
    requires x.service !in names && Members(ps, x.provider, x.service) == []
    ensures ServiceGroups(ps + [x], x.provider, names + [x.service])
         == ServiceGroups(ps, x.provider, names) + [ServiceGroup(x.service, [x.resource])]
  {
    var p, s := x.provider, x.service;
    var after := ServiceGroups(ps + [x], p, names + [s]);
    var add := ServiceGroups(ps, p, names) + [ServiceGroup(s, [x.resource])];
    forall i | 0 <= i < |after|
      ensures after[i] == add[i]
    {
      if i < |names| {
        MembersSnoc(ps, x, p, names[i]);
        assert names[i] != s;
      } else {
        MembersSnoc(ps, x, p, s);
      }
    }
  }

  lemma ServicesOfSnoc(ps: seq<Placed>, x: Placed, p: string)
    ensures ServicesOf(ps + [x], p)
         == if p == x.provider then AddToService(ServicesOf(ps, p), x.service, x.resource)
            else ServicesOf(ps, p)
  {
    if p != x.provider {
      ServicesOfOther(ps, x, p);
    } else if x.service in ServiceKeys(ps, p) {
      ServicesOfSeen(ps, x);
    } else {
      ServicesOfNew(ps, x);
      DedupSpec(ServiceKeys(ps, p));
      var before := ServicesOf(ps, p);
      assert ServiceNames(before) == Dedup(ServiceKeys(ps, p));
      assert AddToService(before, x.service, x.resource) == before + [ServiceGroup(x.service, [x.resource])];
    }
  }

  /** A resource of a provider already seen is added inside that provider's group. */
  lemma HierarchySeen(ps: seq<Placed>, x: Placed)
    requires x.provider in ProviderKeys(ps)
    ensures Hierarchy(ps + [x]) == AddResource(Hierarchy(ps), x.provider, x.service, x.resource)
  {
    var d := Dedup(ProviderKeys(ps));
    SeenProviderNames(ps, x);
    AddToSeenProvider(ps, x, d);
  }

  /** A provider seen before adds no name. */
  lemma SeenProviderNames(ps: seq<Placed>, x: Placed)
    requires x.provider in ProviderKeys(ps)
    ensures Dedup(ProviderKeys(ps + [x])) == Dedup(ProviderKeys(ps))
    ensures Distinct(Dedup(ProviderKeys(ps))) && x.provider in Dedup(ProviderKeys(ps))
  {
    ProviderKeysSnoc(ps, x);
    DedupSnoc(ProviderKeys(ps), x.provider);
    DedupSpec(ProviderKeys(ps));
  }

  lemma AddToSeenProvider(ps: seq<Placed>, x: Placed, names: seq<string>)
    requires Distinct(names) && x.provider in names
    ensures ProviderGroups(ps + [x], names) == AddResource(ProviderGroups(ps, names), x.provider, x.service, x.resource)
  {
    var h := ProviderGroups(ps, names);
    assert ProviderNames(h) == names;
    var k := IndexOf(names, x.provider).value;
    ProviderGroupsSeen(ps, x, names, k);
  }

  /** With the names unchanged, only the group of the new resource's provider changes. */
  lemma ProviderGroupsSeen(ps: seq<Placed>, x: Placed, names: seq<string>, k: nat)
    requires k < |names| && names[k] == x.provider && Distinct(names)
    ensures ProviderGroups(ps + [x], names)
         == ProviderGroups(ps, names)[k := ProviderGroup(x.provider, AddToService(ServicesOf(ps, x.provider), x.service, x.resource))]
  {
    var after := ProviderGroups(ps + [x], names);
    var add := ProviderGroups(ps, names)[k := ProviderGroup(x.provider, AddToService(ServicesOf(ps, x.provider), x.service, x.resource))];
    forall i | 0 <= i < |after|
      ensures after[i] == add[i]
    {
      if i == k {
        ServicesOfSnoc(ps, x, x.provider);
      } else {
        ServicesOfOther(ps, x, names[i]);
      }
    }
  }

  /** A resource of a new provider opens a provider group of its own at the end. */
  lemma HierarchyNew(ps: seq<Placed>, x: Placed)
    requires x.provider !in ProviderKeys(ps)
    ensures Hierarchy(ps + [x]) == Hierarchy(ps) + [ProviderGroup(x.provider, [ServiceGroup(x.service, [x.resource])])]
  {
    var p := x.provider;
    ProviderKeysSnoc(ps, x);
    var d := Dedup(ProviderKeys(ps));
    DedupSnoc(ProviderKeys(ps), p);
    DedupSpec(ProviderKeys(ps));
    assert Dedup(ProviderKeys(ps + [x])) == d + [p];
    NewProviderServices(ps, x);
    ProviderGroupsNew(ps, x, d);
  }

  /** The first resource of a provider makes its only service group. */
  lemma NewProviderServices(ps: seq<Placed>, x: Placed)
    requires x.provider !in ProviderKeys(ps)
    ensures ServicesOf(ps + [x], x.provider) == [ServiceGroup(x.service, [x.resource])]
  {
    ServicesOfSnoc(ps, x, x.provider);
    NoServiceKeys(ps, x.provider);
    assert ServicesOf(ps, x.provider) == [];
    assert AddToService([], x.service, x.resource) == [ServiceGroup(x.service, [x.resource])];
  }

  /** A provider not yet among `names` adds a group at the end; the others do not change. */
  lemma ProviderGroupsNew(ps: seq<Placed>, x: Placed, names: seq<string>)
    requires x.provider !in names
    ensures ProviderGroups(ps + [x], names + [x.provider])
         == ProviderGroups(ps, names) + [ProviderGroup(x.provider, ServicesOf(ps + [x], x.provider))]
  {
    var after := ProviderGroups(ps + [x], names + [x.provider]);
    var add := ProviderGroups(ps, names) + [ProviderGroup(x.provider, ServicesOf(ps + [x], x.provider))];
    forall i | 0 <= i < |after|
      ensures after[i] == add[i]
    {
      if i < |names| {
        assert names[i] != x.provider;
        ServicesOfOther(ps, x, names[i]);
      }
    }
  }

  /** Adding one resource to the input is one step of the loop. */
  lemma HierarchySnoc(ps: seq<Placed>, x: Placed)
    ensures Hierarchy(ps + [x]) == AddResource(Hierarchy(ps), x.provider, x.service, x.resource)
  {
    if x.provider in ProviderKeys(ps) {
      HierarchySeen(ps, x);
    } else {
      HierarchyNew(ps, x);
      DedupSpec(ProviderKeys(ps));
      assert ProviderNames(Hierarchy(ps)) == Dedup(ProviderKeys(ps));
    }
  }

  // ----- Properties of the hierarchy -----

  /** Providers appear once each, in the order their first resource appears. */
  lemma ProvidersInFirstSeenOrder(rs: seq<ResourceNode>)
    ensures ProviderNames(Hierarchy(Placements(rs))) == Dedup(ProviderKeys(Placements(rs)))
    ensures Distinct(ProviderNames(Hierarchy(Placements(rs))))
  {
    HierarchyNames(Placements(rs));
  }

  lemma HierarchyNames(ps: seq<Placed>)
    ensures ProviderNames(Hierarchy(ps)) == Dedup(ProviderKeys(ps))
    ensures Distinct(ProviderNames(Hierarchy(ps)))
  {
    DedupSpec(ProviderKeys(ps));
    assert ProviderNames(Hierarchy(ps)) == Dedup(ProviderKeys(ps));
  }

  /** Within a provider, services appear once each, in first-seen order. */
  lemma ServicesInFirstSeenOrder(rs: seq<ResourceNode>, i: nat)
    requires i < |Hierarchy(Placements(rs))|
    ensures var g := Hierarchy(Placements(rs))[i];
            ServiceNames(g.services) == Dedup(ServiceKeys(Placements(rs), g.name))
            && Distinct(ServiceNames(g.services))
  {
    var g := Hierarchy(Placements(rs))[i];
    DedupSpec(ServiceKeys(Placements(rs), g.name));
    assert ServiceNames(g.services) == Dedup(ServiceKeys(Placements(rs), g.name));
  }

  /** The resources of placements, in order. */
  function ResourcesOf(ps: seq<Placed>): seq<ResourceNode> {
    if ps == [] then [] else ResourcesOf(ps[..|ps| - 1]) + [ps[|ps| - 1].resource]
  }

  /** Placing resources keeps each resource at its index, with its two keys. */
  lemma {:induction false} PlacementAt(rs: seq<ResourceNode>, j: nat)
    requires j < |rs|
    ensures Placements(rs)[j] == Placed(ProviderKey(rs[j]), ServiceKey(rs[j]), rs[j])
  {
  }

  /** Placing resources loses none and adds none. */
  lemma {:induction false} PlacementsResources(rs: seq<ResourceNode>)
    ensures ResourcesOf(Placements(rs)) == rs
  {
    if rs != [] {
      var init := rs[..|rs| - 1];
      PlacementsResources(init);
      var ps := Placements(rs);
      assert ps[..|ps| - 1] == Placements(init);
      assert rs == init + [rs[|rs| - 1]];
    }
  }

  /** Every member of service `s` of provider `p` was placed with exactly those keys. */
  lemma {:induction false} MemberPlaced(ps: seq<Placed>, p: string, s: string, k: nat)
    requires k < |Members(ps, p, s)|
    ensures exists j :: 0 <= j < |ps| && ps[j] == Placed(p, s, Members(ps, p, s)[k])
  {
    var init := ps[..|ps| - 1];
    if k < |Members(init, p, s)| {
      MemberPlaced(init, p, s, k);
      var j :| 0 <= j < |init| && init[j] == Placed(p, s, Members(init, p, s)[k]);
      assert ps[j] == init[j];
    } else {
      assert ps[|ps| - 1] == Placed(p, s, Members(ps, p, s)[k]);
    }
  }

  /** Every resource of a group is an input resource with that group's provider and service keys. */
  lemma GroupsMatchKeys(rs: seq<ResourceNode>, i: nat, j: nat, k: nat)
    requires i < |Hierarchy(Placements(rs))| && j < |Hierarchy(Placements(rs))[i].services|
    requires k < |Hierarchy(Placements(rs))[i].services[j].resources|
    ensures var g := Hierarchy(Placements(rs))[i];
            var r := g.services[j].resources[k];
            r in rs && ProviderKey(r) == g.name && ServiceKey(r) == g.services[j].name
  {
    var ps := Placements(rs);
    var g := Hierarchy(ps)[i];
    var sg := g.services[j];
    MemberPlaced(ps, g.name, sg.name, k);
    var m :| 0 <= m < |ps| && ps[m] == Placed(g.name, sg.name, sg.resources[k]);
    PlacementAt(rs, m);
  }

  /** The multisets `f` gives the elements of a list, added up. */
  function SumBag<T, R>(xs: seq<T>, f: T -> multiset<R>): multiset<R> {
    if xs == [] then multiset{} else SumBag(xs[..|xs| - 1], f) + f(xs[|xs| - 1])
  }

  function GroupBag(): ServiceGroup -> multiset<ResourceNode> {
    (g: ServiceGroup) => multiset(g.resources)
  }

  function ProviderBag(): ProviderGroup -> multiset<ResourceNode> {
    (g: ProviderGroup) => ServicesBag(g.services)
  }

  /** All resources of a list of service groups, as a multiset. */
  function ServicesBag(gs: seq<ServiceGroup>): multiset<ResourceNode> {
    SumBag(gs, GroupBag())
  }

  /** All resources placed in a hierarchy, as a multiset. */
  function HierarchyBag(h: seq<ProviderGroup>): multiset<ResourceNode> {
    SumBag(h, ProviderBag())
  }

  /** Adding the same bag to both sides of an equation keeps it. */
  lemma SwapSummand<T>(a': multiset<T>, a: multiset<T>, mi: multiset<T>, mg: multiset<T>, mn: multiset<T>)
    requires a' + mi == a + mg
    ensures (a' + mn) + mi == (a + mn) + mg
  {
    calc {
      (a' + mn) + mi;
      (a' + mi) + mn;
      (a + mg) + mn;
      (a + mn) + mg;
    }
  }

  /** Replacing element `i` by `x` swaps its share of the sum for the share of `x`. */
  lemma {:induction false} SumBagUpdate<T, R>(xs: seq<T>, i: nat, x: T, f: T -> multiset<R>)
    requires i < |xs|
    ensures SumBag(xs[i := x], f) + f(xs[i]) == SumBag(xs, f) + f(x)
  {
    var n := |xs| - 1;
    var upd := xs[i := x];
    if i < n {
      assert upd[..n] == xs[..n][i := x];
      SumBagUpdate(xs[..n], i, x, f);
      assert xs[..n][i] == xs[i];
      SwapSummand(SumBag(upd[..n], f), SumBag(xs[..n], f), f(xs[i]), f(x), f(xs[n]));
    } else {
      assert upd[..n] == xs[..n];
    }
  }

  lemma AddToServiceBag(gs: seq<ServiceGroup>, s: string, r: ResourceNode)
    ensures ServicesBag(AddToService(gs, s, r)) == ServicesBag(gs) + multiset{r}
  {
    match IndexOf(ServiceNames(gs), s)
    case Some(i) =>
      var g := ServiceGroup(s, gs[i].resources + [r]);
      assert AddToService(gs, s, r) == gs[i := g];
      SumBagUpdate(gs, i, g, GroupBag());
      assert multiset(g.resources) == multiset(gs[i].resources) + multiset{r};
      MultisetCancel(ServicesBag(gs[i := g]), ServicesBag(gs) + multiset{r}, multiset(gs[i].resources));
    case None =>
      var g := ServiceGroup(s, [r]);
      assert AddToService(gs, s, r) == gs + [g];
      assert (gs + [g])[..|gs|] == gs;
  }

  lemma AddResourceBag(h: seq<ProviderGroup>, p: string, s: string, r: ResourceNode)
    ensures HierarchyBag(AddResource(h, p, s, r)) == HierarchyBag(h) + multiset{r}
  {
    match IndexOf(ProviderNames(h), p)
    case Some(i) =>
      var g := ProviderGroup(p, AddToService(h[i].services, s, r));
      assert AddResource(h, p, s, r) == h[i := g];
      AddToServiceBag(h[i].services, s, r);
      SumBagUpdate(h, i, g, ProviderBag());
      MultisetCancel(HierarchyBag(h[i := g]), HierarchyBag(h) + multiset{r}, ServicesBag(h[i].services));
    case None =>
      var g := ProviderGroup(p, [ServiceGroup(s, [r])]);
      assert AddResource(h, p, s, r) == h + [g];
      assert (h + [g])[..|h|] == h;
      assert ServicesBag(g.services) == multiset{r} by {
        assert g.services[..0] == [];
        assert SumBag(g.services, GroupBag()) == SumBag(g.services[..0], GroupBag()) + GroupBag()(g.services[0]);
        assert GroupBag()(g.services[0]) == multiset([r]) == multiset{r};
      }
  }

  /** The hierarchy as the loop builds it: one `AddResource` per placement. */
  function Inserted(ps: seq<Placed>): seq<ProviderGroup> {
    if ps == [] then []
    else
      var x := ps[|ps| - 1];
      AddResource(Inserted(ps[..|ps| - 1]), x.provider, x.service, x.resource)
  }

  lemma {:induction false} HierarchyIsInserted(ps: seq<Placed>)
    ensures Hierarchy(ps) == Inserted(ps)
  {
    if ps != [] {
      var init := ps[..|ps| - 1];
      HierarchyIsInserted(init);
      assert ps == init + [ps[|ps| - 1]];
      HierarchySnoc(init, ps[|ps| - 1]);
    }
  }

  lemma {:induction false} InsertedBag(ps: seq<Placed>)
    ensures HierarchyBag(Inserted(ps)) == multiset(ResourcesOf(ps))
  {
    if ps != [] {
      var init := ps[..|ps| - 1];
      var x := ps[|ps| - 1];
      InsertedBag(init);
      var h := Inserted(init);
      assert Inserted(ps) == AddResource(h, x.provider, x.service, x.resource);
      AddResourceBag(h, x.provider, x.service, x.resource);
    }
  }

  /** Every placement ends up in the hierarchy exactly once. */
  lemma EveryPlacementOnce(ps: seq<Placed>)
    ensures HierarchyBag(Hierarchy(ps)) == multiset(ResourcesOf(ps))
  {
    HierarchyIsInserted(ps);
    InsertedBag(ps);
  }

  /** Every resource is placed exactly once: the hierarchy holds the input, as a multiset. */
  lemma EveryResourceOnce(rs: seq<ResourceNode>)
    ensures HierarchyBag(Hierarchy(Placements(rs))) == multiset(rs)
  {
    EveryPlacementOnce(Placements(rs));
    PlacementsResources(rs);
  }
}
