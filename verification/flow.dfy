/**
 The node and edge lists `toReactFlowElements` (src/utils/parsePlan.ts)
 returns: for every provider a group node and a label, for every service a
 group node and a label inside the provider, and for every resource a leaf
 inside its service; providers are stacked top to bottom. Presentation
 fields (colours, styles, label text) are not modelled.
 */
module FlowElements {
  import opened Collections
  import opened Terraform
  import opened ServiceClassifier
  import opened Grouping
  import opened Geometry
  import opened Edges

  /** A node of the graph; `parent` is the id of the enclosing group node, positions are relative to it. */
  datatype FlowNode =
    | GroupNode(id: string, parent: Option<string>, x: int, y: int, width: nat, height: nat)
    | LabelNode(id: string, parent: Option<string>, x: int, y: int)
    | ResourceLeaf(id: string, parent: Option<string>, x: int, y: int, resource: ResourceNode, serviceName: string)

  function ProviderId(p: string): string {
    "provider-" + p
  }

  function ServiceId(providerId: string, s: string): string {
    providerId + "-" + s
  }

  function LabelId(id: string): string {
    id + "-label"
  }

  // ----- Reference definition -----

  /** The sizes of a provider's service boxes, in order. */
  function SizesOf(services: seq<ServiceGroup>): (sizes: seq<Size>)
    ensures |sizes| == |services|
    ensures forall i :: 0 <= i < |services| ==> sizes[i] == ServiceSize(|services[i].resources|)
  {
    if services == [] then []
    else SizesOf(services[..|services| - 1]) + [ServiceSize(|services[|services| - 1].resources|)]
  }

  /** The leaf of the `i`-th resource of a service. */
  function Leaf(serviceId: string, serviceName: string, r: ResourceNode, i: nat): FlowNode {
    var b := LeafBox(i);
    ResourceLeaf(r.id, Some(serviceId), b.x, b.y, r, serviceName)
  }

  /** The leaves of the first `n` resources of a service. */
  function LeafNodes(serviceId: string, serviceName: string, rs: seq<ResourceNode>, n: nat): seq<FlowNode>
    requires n <= |rs|
  {
    if n == 0 then [] else LeafNodes(serviceId, serviceName, rs, n - 1) + [Leaf(serviceId, serviceName, rs[n - 1], n - 1)]
  }

  /** The service box, its label and its leaves, for the `i`-th service of a provider. */
  function ServiceNodes(providerId: string, services: seq<ServiceGroup>, i: nat): seq<FlowNode>
    requires i < |services|
  {
    var b := ServiceBox(SizesOf(services), i);
    var g := services[i];
    var serviceId := ServiceId(providerId, g.name);
    [GroupNode(serviceId, Some(providerId), b.x, b.y, b.width, b.height),
     LabelNode(LabelId(serviceId), Some(serviceId), PADDING, 6)]
    + LeafNodes(serviceId, g.name, g.resources, |g.resources|)
  }

  /** The nodes of the first `n` services of a provider. */
  function ServicesNodes(providerId: string, services: seq<ServiceGroup>, n: nat): seq<FlowNode>
    requires n <= |services|
  {
    if n == 0 then [] else ServicesNodes(providerId, services, n - 1) + ServiceNodes(providerId, services, n - 1)
  }

  /** The provider box at height `y`, its label and everything inside it. */
  function ProviderNodes(g: ProviderGroup, y: int): seq<FlowNode> {
    var sizes := SizesOf(g.services);
    var providerId := ProviderId(g.name);
    [GroupNode(providerId, None, 0, y, ProviderWidth(sizes), ProviderHeight(sizes)),
     LabelNode(LabelId(providerId), Some(providerId), PADDING, 8)]
    + ServicesNodes(providerId, g.services, |g.services|)
  }

  /** The heights of the provider boxes, in order. */
  function ProviderHeights(h: seq<ProviderGroup>): (hs: seq<nat>)
    ensures |hs| == |h|
  {
    if h == [] then [] else ProviderHeights(h[..|h| - 1]) + [ProviderHeight(SizesOf(h[|h| - 1].services))]
  }

  /** The `i`-th height is the height of the `i`-th provider's box. */
  lemma {:induction false} ProviderHeightsAt(h: seq<ProviderGroup>, i: nat)
    requires i < |h|
    ensures ProviderHeights(h)[i] == ProviderHeight(SizesOf(h[i].services))
  {
    if i < |h| - 1 {
      ProviderHeightsAt(h[..|h| - 1], i);
    }
  }

  /** The nodes of the first `n` providers, each stacked below the previous one. */
  function NodesUpTo(h: seq<ProviderGroup>, n: nat): seq<FlowNode>
    requires n <= |h|
  {
    if n == 0 then [] else NodesUpTo(h, n - 1) + ProviderNodesAt(h, n - 1)
  }

  /** The nodes of the `k`-th provider, at its place in the stack. */
  function ProviderNodesAt(h: seq<ProviderGroup>, k: nat): seq<FlowNode>
    requires k < |h|
  {
    ProviderNodes(h[k], ProviderY(ProviderHeights(h), k))
  }

  function NodesOf(h: seq<ProviderGroup>): seq<FlowNode> {
    NodesUpTo(h, |h|)
  }

  // ----- The loops -----

  /** `toReactFlowElements`: group, lay out, then connect. */
  method ToFlowElements(parsed: ParsedPlan) returns (nodes: seq<FlowNode>, edges: seq<FlowEdge>)
    ensures nodes == NodesOf(Hierarchy(Placements(parsed.resources)))
    ensures edges == EdgesOf(parsed.resources)
  {
    var hierarchy := BuildHierarchy(parsed.resources);
    nodes := PlaceProviders(hierarchy);
    edges := BuildEdges(parsed.resources);
  }

  /** The loop over providers, carrying the running `providerYOffset`. */
  method PlaceProviders(hierarchy: seq<ProviderGroup>) returns (nodes: seq<FlowNode>)
    ensures nodes == NodesOf(hierarchy)
  {
    nodes := [];
    var providerYOffset := 0;
    for k := 0 to |hierarchy|
      invariant nodes == NodesUpTo(hierarchy, k)
      invariant providerYOffset == ProviderY(ProviderHeights(hierarchy), k)
    {
      var providerNodes, providerHeight := PlaceProvider(hierarchy[k], providerYOffset);
      ProvidersStep(hierarchy, k, providerYOffset, nodes, providerNodes, providerHeight);
      nodes := nodes + providerNodes;
      providerYOffset := providerYOffset + providerHeight + PROVIDER_GAP;
    }
  }

  /** One turn of the loop over providers: the next provider's nodes at the running offset. */
  lemma ProvidersStep(h: seq<ProviderGroup>, k: nat, y: int, nodes: seq<FlowNode>, next: seq<FlowNode>, height: nat)
    requires k < |h| && y == ProviderY(ProviderHeights(h), k)
    requires nodes == NodesUpTo(h, k) && next == ProviderNodes(h[k], y) && height == ProviderHeight(SizesOf(h[k].services))
    ensures nodes + next == NodesUpTo(h, k + 1)
    ensures ProviderY(ProviderHeights(h), k + 1) == y + height + PROVIDER_GAP
  {
    ProviderHeightsAt(h, k);
  }

  /** The body of the loop over providers: the provider box, its label and its services. */
  method PlaceProvider(providerGroup: ProviderGroup, providerYOffset: int) returns (nodes: seq<FlowNode>, providerHeight: nat)
    ensures nodes == ProviderNodes(providerGroup, providerYOffset)
    ensures providerHeight == ProviderHeight(SizesOf(providerGroup.services))
  {
    var providerId := ProviderId(providerGroup.name);
    var services := providerGroup.services;
    var serviceInfos := ServiceInfos(services);
    var grid := LayoutGrid(serviceInfos);
    providerHeight := grid.height;
    nodes := [GroupNode(providerId, None, 0, providerYOffset, grid.width, grid.height),
              LabelNode(LabelId(providerId), Some(providerId), PADDING, 8)];
    ghost var header := nodes;
    for index := 0 to |services|
      invariant nodes == header + ServicesNodes(providerId, services, index)
    {
      var box := CellBox(serviceInfos, grid, index);
      var serviceNodes := PlaceService(providerId, services, index, box);
      ServicesNodesSnoc(header, providerId, services, index);
      nodes := nodes + serviceNodes;
    }
  }

  lemma ServicesNodesSnoc(header: seq<FlowNode>, providerId: string, services: seq<ServiceGroup>, n: nat)
    requires n < |services|
    ensures header + ServicesNodes(providerId, services, n + 1)
         == header + ServicesNodes(providerId, services, n) + ServiceNodes(providerId, services, n)
  {
  }

  /** One service of a provider: its box at `box`, its label and its leaves. */
  method PlaceService(providerId: string, services: seq<ServiceGroup>, index: nat, box: Box) returns (serviceNodes: seq<FlowNode>)
    requires index < |services| && box == ServiceBox(SizesOf(services), index)
    ensures serviceNodes == ServiceNodes(providerId, services, index)
  {
    var info := services[index];
    var serviceId := ServiceId(providerId, info.name);
    var leaves := PlaceResources(serviceId, info.name, info.resources);
    serviceNodes := [GroupNode(serviceId, Some(providerId), box.x, box.y, box.width, box.height),
                     LabelNode(LabelId(serviceId), Some(serviceId), PADDING, 6)] + leaves;
  }

  /** The sizes of the service boxes, precomputed before the grid is laid out. */
  method ServiceInfos(services: seq<ServiceGroup>) returns (infos: seq<Size>)
    ensures infos == SizesOf(services)
  {
    infos := [];
    for i := 0 to |services|
      invariant infos == SizesOf(services[..i])
    {
      var resourceCount := |services[i].resources|;
      var rows := CeilDiv(resourceCount, RESOURCE_COLS);
      var width := RESOURCE_COLS * NODE_WIDTH + (RESOURCE_COLS + 1) * PADDING;
      var height := SERVICE_HEADER + rows * NODE_HEIGHT + (rows + 1) * PADDING;
      assert services[..i + 1][..i] == services[..i];
      infos := infos + [Size(width, height)];
    }
    assert services[..|services|] == services;
  }

  /** The leaves of one service, two to a row. */
  method PlaceResources(serviceId: string, serviceName: string, resources: seq<ResourceNode>) returns (leaves: seq<FlowNode>)
    ensures leaves == LeafNodes(serviceId, serviceName, resources, |resources|)
  {
    leaves := [];
    for resourceIndex := 0 to |resources|
      invariant leaves == LeafNodes(serviceId, serviceName, resources, resourceIndex)
    {
      var resource := resources[resourceIndex];
      var resourceCol := resourceIndex % RESOURCE_COLS;
      var resourceRow := resourceIndex / RESOURCE_COLS;
      var resourceX := PADDING + resourceCol * (NODE_WIDTH + PADDING);
      var resourceY := SERVICE_HEADER + PADDING + resourceRow * (NODE_HEIGHT + PADDING);
      leaves := leaves + [ResourceLeaf(resource.id, Some(serviceId), resourceX, resourceY, resource, serviceName)];
    }
  }

  // ----- Every resource becomes exactly one leaf -----

  /** The resources carried by the leaves of a node list, in order. */
  function LeafResources(nodes: seq<FlowNode>): seq<ResourceNode> {
    if nodes == [] then []
    else
      var last := nodes[|nodes| - 1];
      LeafResources(nodes[..|nodes| - 1]) + (if last.ResourceLeaf? then [last.resource] else [])
  }

  lemma {:induction false} LeafResourcesAppend(a: seq<FlowNode>, b: seq<FlowNode>)
    ensures LeafResources(a + b) == LeafResources(a) + LeafResources(b)
    decreases |b|
  {
    if b == [] {
      assert a + b == a;
    } else {
      var init := b[..|b| - 1];
      LeafResourcesAppend(a, init);
      var last := b[|b| - 1];
      var tail := if last.ResourceLeaf? then [last.resource] else [];
      assert (a + b)[..|a + b| - 1] == a + init;
      assert (a + b)[|a + b| - 1] == last;
    }
  }

  /** A group node and its label carry no resource. */
  lemma HeaderHasNoLeaves(groupNode: FlowNode, labelNode: FlowNode)
    requires !groupNode.ResourceLeaf? && !labelNode.ResourceLeaf?
    ensures LeafResources([groupNode, labelNode]) == []
  {
    assert [groupNode, labelNode][..1] == [groupNode];
    assert [groupNode][..0] == [];
    assert LeafResources([groupNode]) == LeafResources([]);
  }

  /** Putting a group node and its label in front of some nodes adds no resource. */
  lemma HeaderThenLeaves(groupNode: FlowNode, labelNode: FlowNode, body: seq<FlowNode>)
    requires !groupNode.ResourceLeaf? && !labelNode.ResourceLeaf?
    ensures LeafResources([groupNode, labelNode] + body) == LeafResources(body)
  {
    LeafResourcesAppend([groupNode, labelNode], body);
    HeaderHasNoLeaves(groupNode, labelNode);
  }

  lemma {:induction false} LeafNodesResources(serviceId: string, serviceName: string, rs: seq<ResourceNode>, n: nat)
    requires n <= |rs|
    ensures LeafResources(LeafNodes(serviceId, serviceName, rs, n)) == rs[..n]
  {
    if n > 0 {
      LeafNodesResources(serviceId, serviceName, rs, n - 1);
      var init := LeafNodes(serviceId, serviceName, rs, n - 1);
      LeafSnoc(init, Leaf(serviceId, serviceName, rs[n - 1], n - 1), rs, n);
    }
  }

  /** Appending the leaf of the `n`-th resource extends the carried resources by it. */
  lemma LeafSnoc(init: seq<FlowNode>, leaf: FlowNode, rs: seq<ResourceNode>, n: nat)
    requires 0 < n <= |rs| && LeafResources(init) == rs[..n - 1]
    requires leaf.ResourceLeaf? && leaf.resource == rs[n - 1]
    ensures LeafResources(init + [leaf]) == rs[..n]
  {
    LeafResourcesAppend(init, [leaf]);
    assert [leaf][..0] == [];
    assert rs[..n] == rs[..n - 1] + [rs[n - 1]];
  }

  lemma ServiceNodesResources(providerId: string, services: seq<ServiceGroup>, i: nat)
    requires i < |services|
    ensures LeafResources(ServiceNodes(providerId, services, i)) == services[i].resources
  {
    var g := services[i];
    var serviceId := ServiceId(providerId, g.name);
    var b := ServiceBox(SizesOf(services), i);
    LeafNodesResources(serviceId, g.name, g.resources, |g.resources|);
    assert g.resources[..|g.resources|] == g.resources;
    HeaderThenLeaves(GroupNode(serviceId, Some(providerId), b.x, b.y, b.width, b.height),
                     LabelNode(LabelId(serviceId), Some(serviceId), PADDING, 6),
                     LeafNodes(serviceId, g.name, g.resources, |g.resources|));
  }

  lemma {:induction false} ServicesNodesResources(providerId: string, services: seq<ServiceGroup>, n: nat)
    requires n <= |services|
    ensures multiset(LeafResources(ServicesNodes(providerId, services, n))) == ServicesBag(services[..n])
  {
    if n > 0 {
      ServicesNodesResources(providerId, services, n - 1);
      ServiceNodesResources(providerId, services, n - 1);
      ServicesBagStep(ServicesNodes(providerId, services, n - 1), ServiceNodes(providerId, services, n - 1), services, n);
    }
  }

  /** One more service's nodes add that service's resources to the bag. */
  lemma ServicesBagStep(prev: seq<FlowNode>, next: seq<FlowNode>, services: seq<ServiceGroup>, n: nat)
    requires 0 < n <= |services|
    requires multiset(LeafResources(prev)) == ServicesBag(services[..n - 1])
    requires LeafResources(next) == services[n - 1].resources
    ensures multiset(LeafResources(prev + next)) == ServicesBag(services[..n])
  {
    LeafResourcesAppend(prev, next);
    assert services[..n][..n - 1] == services[..n - 1];
  }

  lemma ProviderNodesResources(g: ProviderGroup, y: int)
    ensures multiset(LeafResources(ProviderNodes(g, y))) == ServicesBag(g.services)
  {
    var sizes := SizesOf(g.services);
    var providerId := ProviderId(g.name);
    ServicesNodesResources(providerId, g.services, |g.services|);
    assert g.services[..|g.services|] == g.services;
    HeaderThenLeaves(GroupNode(providerId, None, 0, y, ProviderWidth(sizes), ProviderHeight(sizes)),
                     LabelNode(LabelId(providerId), Some(providerId), PADDING, 8),
                     ServicesNodes(providerId, g.services, |g.services|));
  }

  lemma {:induction false} NodesResources(h: seq<ProviderGroup>, n: nat)
    requires n <= |h|
    ensures multiset(LeafResources(NodesUpTo(h, n))) == HierarchyBag(h[..n])
  {
    if n > 0 {
      NodesResources(h, n - 1);
      ProviderNodesResources(h[n - 1], ProviderY(ProviderHeights(h), n - 1));
      HierarchyBagStep(NodesUpTo(h, n - 1), ProviderNodesAt(h, n - 1), h, n);
    }
  }

  /** One more provider's nodes add that provider's resources to the bag. */
  lemma HierarchyBagStep(prev: seq<FlowNode>, next: seq<FlowNode>, h: seq<ProviderGroup>, n: nat)
    requires 0 < n <= |h|
    requires multiset(LeafResources(prev)) == HierarchyBag(h[..n - 1])
    requires multiset(LeafResources(next)) == ServicesBag(h[n - 1].services)
    ensures multiset(LeafResources(prev + next)) == HierarchyBag(h[..n])
  {
    LeafResourcesAppend(prev, next);
    assert h[..n][..n - 1] == h[..n - 1];
  }

  /** The leaves carry exactly the plan's resources: each resource once, none added. */
  lemma LeavesAreTheResources(rs: seq<ResourceNode>)
    ensures multiset(LeafResources(NodesOf(Hierarchy(Placements(rs))))) == multiset(rs)
  {
    NodesBag(Hierarchy(Placements(rs)));
    EveryResourceOnce(rs);
  }

  /** The leaves of a whole stack carry the resources of all its providers. */
  lemma NodesBag(h: seq<ProviderGroup>)
    ensures multiset(LeafResources(NodesOf(h))) == HierarchyBag(h)
  {
    NodesResources(h, |h|);
    assert h[..|h|] == h;
  }

  // ----- Every leaf sits in the box of its own provider and service -----

  /** Every leaf of `nodes` satisfies `p`. */
  predicate AllLeaves(nodes: seq<FlowNode>, p: FlowNode -> bool) {
    nodes == [] ||
      var last := nodes[|nodes| - 1];
      AllLeaves(nodes[..|nodes| - 1], p) && (last.ResourceLeaf? ==> p(last))
  }

  lemma {:induction false} AllLeavesMember(nodes: seq<FlowNode>, p: FlowNode -> bool, m: FlowNode)
    requires AllLeaves(nodes, p) && m in nodes && m.ResourceLeaf?
    ensures p(m)
  {
    if m != nodes[|nodes| - 1] {
      assert m in nodes[..|nodes| - 1];
      AllLeavesMember(nodes[..|nodes| - 1], p, m);
    }
  }

  lemma {:induction false} AllLeavesIntro(nodes: seq<FlowNode>, p: FlowNode -> bool)
    requires forall m :: m in nodes && m.ResourceLeaf? ==> p(m)
    ensures AllLeaves(nodes, p)
  {
    if nodes != [] {
      AllLeavesIntro(nodes[..|nodes| - 1], p);
    }
  }

  /** A leaf named after its resource and parented to `provider-<provider>-<service>` of that resource. */
  function Keyed(): FlowNode -> bool {
    (m: FlowNode) => m.ResourceLeaf? && m.id == m.resource.id && m.serviceName == ServiceKey(m.resource)
      && m.parent == Some(ServiceId(ProviderId(ProviderKey(m.resource)), ServiceKey(m.resource)))
  }

  predicate LeavesKeyed(nodes: seq<FlowNode>) {
    AllLeaves(nodes, Keyed())
  }

  lemma {:induction false} AllLeavesAppend(a: seq<FlowNode>, b: seq<FlowNode>, p: FlowNode -> bool)
    requires AllLeaves(a, p) && AllLeaves(b, p)
    ensures AllLeaves(a + b, p)
    decreases |b|
  {
    if b == [] {
      assert a + b == a;
    } else {
      AllLeavesAppend(a, b[..|b| - 1], p);
      assert (a + b)[..|a + b| - 1] == a + b[..|b| - 1];
    }
  }

  lemma {:induction false} LeafNodesUnder(serviceId: string, serviceName: string, rs: seq<ResourceNode>, n: nat)
    requires n <= |rs|
    ensures forall m :: m in LeafNodes(serviceId, serviceName, rs, n) ==>
      m.ResourceLeaf? && m.id == m.resource.id && m.parent == Some(serviceId)
      && m.serviceName == serviceName && m.resource in rs
  {
    if n > 0 {
      LeafNodesUnder(serviceId, serviceName, rs, n - 1);
    }
  }

  lemma ServiceLeavesKeyed(rs: seq<ResourceNode>, i: nat, j: nat)
    requires i < |Hierarchy(Placements(rs))| && j < |Hierarchy(Placements(rs))[i].services|
    ensures var g := Hierarchy(Placements(rs))[i];
            LeavesKeyed(ServiceNodes(ProviderId(g.name), g.services, j))
  {
    var g := Hierarchy(Placements(rs))[i];
    var sg := g.services[j];
    forall r | r in sg.resources
      ensures ProviderKey(r) == g.name && ServiceKey(r) == sg.name
    {
      var k :| 0 <= k < |sg.resources| && sg.resources[k] == r;
      GroupsMatchKeys(rs, i, j, k);
    }
    ServiceNodesKeyed(g.name, g.services, j);
  }

  /** A service whose resources all have its provider and service keys has keyed leaves. */
  lemma ServiceNodesKeyed(providerName: string, services: seq<ServiceGroup>, j: nat)
    requires j < |services|
    requires forall r :: r in services[j].resources ==> ProviderKey(r) == providerName && ServiceKey(r) == services[j].name
    ensures AllLeaves(ServiceNodes(ProviderId(providerName), services, j), Keyed())
  {
    var sg := services[j];
    var serviceId := ServiceId(ProviderId(providerName), sg.name);
    var leaves := LeafNodes(serviceId, sg.name, sg.resources, |sg.resources|);
    LeafNodesUnder(serviceId, sg.name, sg.resources, |sg.resources|);
    var nodes := ServiceNodes(ProviderId(providerName), services, j);
    assert nodes == nodes[..2] + leaves;
    AllLeavesIntro(nodes, Keyed());
  }

  lemma {:induction false} ServicesAllLeaves(providerId: string, services: seq<ServiceGroup>, n: nat, p: FlowNode -> bool)
    requires n <= |services|
    requires forall j :: 0 <= j < |services| ==> AllLeaves(ServiceNodes(providerId, services, j), p)
    ensures AllLeaves(ServicesNodes(providerId, services, n), p)
  {
    if n > 0 {
      ServicesAllLeaves(providerId, services, n - 1, p);
      AllLeavesAppend(ServicesNodes(providerId, services, n - 1), ServiceNodes(providerId, services, n - 1), p);
    }
  }

  lemma ProviderAllLeaves(g: ProviderGroup, y: int, p: FlowNode -> bool)
    requires AllLeaves(ServicesNodes(ProviderId(g.name), g.services, |g.services|), p)
    ensures AllLeaves(ProviderNodes(g, y), p)
  {
    var sizes := SizesOf(g.services);
    var providerId := ProviderId(g.name);
    var head := [GroupNode(providerId, None, 0, y, ProviderWidth(sizes), ProviderHeight(sizes)),
                 LabelNode(LabelId(providerId), Some(providerId), PADDING, 8)];
    AllLeavesAppend(head, ServicesNodes(providerId, g.services, |g.services|), p);
  }

  lemma {:induction false} NodesAllLeaves(h: seq<ProviderGroup>, n: nat, p: FlowNode -> bool)
    requires n <= |h|
    requires forall i :: 0 <= i < |h| ==> AllLeaves(ProviderNodesAt(h, i), p)
    ensures AllLeaves(NodesUpTo(h, n), p)
  {
    if n > 0 {
      NodesAllLeaves(h, n - 1, p);
      AllLeavesAppend(NodesUpTo(h, n - 1), ProviderNodesAt(h, n - 1), p);
    }
  }

  /** Every leaf is named after its resource and sits in the service box of that resource's provider and service. */
  lemma LeavesInTheirServices(rs: seq<ResourceNode>)
    ensures LeavesKeyed(NodesOf(Hierarchy(Placements(rs))))
  {
    var h := Hierarchy(Placements(rs));
    forall i | 0 <= i < |h|
      ensures AllLeaves(ProviderNodesAt(h, i), Keyed())
    {
      forall j | 0 <= j < |h[i].services|
        ensures AllLeaves(ServiceNodes(ProviderId(h[i].name), h[i].services, j), Keyed())
      {
        ServiceLeavesKeyed(rs, i, j);
      }
      ServicesAllLeaves(ProviderId(h[i].name), h[i].services, |h[i].services|, Keyed());
      ProviderAllLeaves(h[i], ProviderY(ProviderHeights(h), i), Keyed());
    }
    NodesAllLeaves(h, |h|, Keyed());
  }

  lemma {:induction false} LeafResourceHasLeaf(nodes: seq<FlowNode>, r: ResourceNode)
    requires r in LeafResources(nodes)
    ensures exists m :: m in nodes && m.ResourceLeaf? && m.resource == r
  {
    var init := nodes[..|nodes| - 1];
    var last := nodes[|nodes| - 1];
    if r in LeafResources(init) {
      LeafResourceHasLeaf(init, r);
      var m :| m in init && m.ResourceLeaf? && m.resource == r;
      assert m in nodes;
    } else {
      assert last.ResourceLeaf? && last.resource == r;
    }
  }

  /** A resource of the plan has a leaf named after it. */
  lemma ResourceHasLeaf(rs: seq<ResourceNode>, r: ResourceNode)
    requires r in rs
    ensures exists m :: m in NodesOf(Hierarchy(Placements(rs))) && m.ResourceLeaf? && m.id == r.id
  {
    var nodes := NodesOf(Hierarchy(Placements(rs)));
    LeavesAreTheResources(rs);
    assert multiset(rs)[r] > 0;
    assert r in LeafResources(nodes);
    LeafResourceHasLeaf(nodes, r);
    LeavesInTheirServices(rs);
    var m :| m in nodes && m.ResourceLeaf? && m.resource == r;
    AllLeavesMember(nodes, Keyed(), m);
  }

  /** Both ends of every edge are ids of leaf nodes. */
  lemma EdgesJoinLeaves(rs: seq<ResourceNode>, e: FlowEdge)
    requires e in EdgesOf(rs)
    ensures exists m :: m in NodesOf(Hierarchy(Placements(rs))) && m.ResourceLeaf? && m.id == e.source
    ensures exists m :: m in NodesOf(Hierarchy(Placements(rs))) && m.ResourceLeaf? && m.id == e.target
  {
    EdgeEndpoints(rs, |rs|);
    var s :| s in rs && s.id == e.source;
    var t :| t in rs && t.id == e.target;
    ResourceHasLeaf(rs, s);
    ResourceHasLeaf(rs, t);
  }
}
