/**
 Dependency edges of the graph (the last loop of `toReactFlowElements`,
 src/utils/parsePlan.ts). For every resource and every dependency string of
 it, the first resource in list order whose address ends with the string, or
 whose id equals it, becomes the source of an edge to the dependent
 resource. Nothing removes self-edges or repeated edges.
 */
module Edges {
  import opened Collections
  import opened Text
  import opened Terraform

  datatype FlowEdge = FlowEdge(id: string, source: string, target: string)

  /** The test `find` applies to each candidate. */
  predicate Matches(r: ResourceNode, dep: string) {
    EndsWith(r.address, dep) || r.id == dep
  }

  /** The index of the first resource at or after `from` that matches `dep`. */
  function FindFrom(rs: seq<ResourceNode>, dep: string, from: nat): (m: Option<nat>)
    requires from <= |rs|
    ensures m.Some? ==> from <= m.value < |rs| && Matches(rs[m.value], dep)
                        && forall k :: from <= k < m.value ==> !Matches(rs[k], dep)
    ensures m.None? ==> forall k :: from <= k < |rs| ==> !Matches(rs[k], dep)
    decreases |rs| - from
  {
    if from == |rs| then None
    else if Matches(rs[from], dep) then Some(from)
    else FindFrom(rs, dep, from + 1)
  }

  /** `parsed.resources.find(...)`: the first match in list order, if any. */
  function FindMatch(rs: seq<ResourceNode>, dep: string): Option<nat> {
    FindFrom(rs, dep, 0)
  }

  /** The edge one dependency of `r` gives: none when nothing matches or the match has an empty id. */
  function EdgeFor(rs: seq<ResourceNode>, r: ResourceNode, dep: string): seq<FlowEdge> {
    match FindMatch(rs, dep)
    case Some(k) =>
      var depId := rs[k].id;
      if depId != "" then [FlowEdge(depId + "-" + r.id, depId, r.id)] else []
    case None => []
  }

  /** The edges of the first `n` dependencies of `r`, in order. */
  function DepEdges(rs: seq<ResourceNode>, r: ResourceNode, n: nat): seq<FlowEdge>
    requires n <= |r.dependencies|
  {
    if n == 0 then [] else DepEdges(rs, r, n - 1) + EdgeFor(rs, r, r.dependencies[n - 1])
  }

  /** The edges of the first `n` resources, in order. */
  function EdgesUpTo(rs: seq<ResourceNode>, n: nat): seq<FlowEdge>
    requires n <= |rs|
  {
    if n == 0 then [] else EdgesUpTo(rs, n - 1) + DepEdges(rs, rs[n - 1], |rs[n - 1].dependencies|)
  }

  function EdgesOf(rs: seq<ResourceNode>): seq<FlowEdge> {
    EdgesUpTo(rs, |rs|)
  }

  function Ids(rs: seq<ResourceNode>): set<string> {
    set r | r in rs :: r.id
  }

  /** The edge loop; the `resourceIds.has(depId)` test always passes. */
  method BuildEdges(rs: seq<ResourceNode>) returns (edges: seq<FlowEdge>)
    ensures edges == EdgesOf(rs)
  {
    var resourceIds := Ids(rs);
    edges := [];
    for i := 0 to |rs|
      invariant edges == EdgesUpTo(rs, i)
    {
      var resource := rs[i];
      ghost var before := edges;
      for j := 0 to |resource.dependencies|
        invariant edges == before + DepEdges(rs, resource, j)
      {
        var dep := resource.dependencies[j];
        var found := FindMatch(rs, dep);
        EdgeStep(rs, resource, j, found);
        if found.Some? {
          var depId := rs[found.value].id;
          if depId != "" && depId in resourceIds {
            edges := edges + [FlowEdge(depId + "-" + resource.id, depId, resource.id)];
          }
        }
      }
    }
  }

  /** One more dependency: the edge it gives, if any, goes at the end; a matched id is always a resource id. */
  lemma EdgeStep(rs: seq<ResourceNode>, r: ResourceNode, j: nat, found: Option<nat>)
    requires j < |r.dependencies| && found == FindMatch(rs, r.dependencies[j])
    ensures found.Some? ==> found.value < |rs| && rs[found.value].id in Ids(rs)
    ensures DepEdges(rs, r, j + 1) == DepEdges(rs, r, j)
      + (if found.Some? && rs[found.value].id != ""
         then [FlowEdge(rs[found.value].id + "-" + r.id, rs[found.value].id, r.id)] else [])
  {
  }

  /** Every edge of one dependency links two resources, with id `<source>-<target>`. */
  lemma EdgeForEndpoints(rs: seq<ResourceNode>, r: ResourceNode, dep: string)
    ensures forall e :: e in EdgeFor(rs, r, dep) ==>
      e.target == r.id && e.source != "" && e.id == e.source + "-" + e.target
      && exists k :: 0 <= k < |rs| && rs[k].id == e.source && Matches(rs[k], dep)
  {
  }

  lemma {:induction false} DepEdgesEndpoints(rs: seq<ResourceNode>, r: ResourceNode, n: nat)
    requires n <= |r.dependencies|
    ensures forall e :: e in DepEdges(rs, r, n) ==>
      e.target == r.id && e.source in Ids(rs) && e.id == e.source + "-" + e.target
  {
    if n > 0 {
      DepEdgesEndpoints(rs, r, n - 1);
      EdgeForEndpoints(rs, r, r.dependencies[n - 1]);
    }
  }

  /**
   Every edge runs from a resource id to a resource id and is named
   `<source>-<target>`.
   */
  lemma {:induction false} EdgeEndpoints(rs: seq<ResourceNode>, n: nat)
    requires n <= |rs|
    ensures forall e :: e in EdgesUpTo(rs, n) ==>
      e.source in Ids(rs) && e.target in Ids(rs) && e.id == e.source + "-" + e.target
  {
    if n > 0 {
      EdgeEndpoints(rs, n - 1);
      DepEdgesEndpoints(rs, rs[n - 1], |rs[n - 1].dependencies|);
      assert rs[n - 1] in rs;
    }
  }

  /** A dependency no resource matches gives no edge. */
  lemma UnmatchedGivesNoEdge(rs: seq<ResourceNode>, r: ResourceNode, dep: string)
    requires forall k :: 0 <= k < |rs| ==> !Matches(rs[k], dep)
    ensures EdgeFor(rs, r, dep) == []
  {
  }

  /** The source of an edge is the first matching resource in list order. */
  lemma FirstMatchIsSource(rs: seq<ResourceNode>, r: ResourceNode, dep: string, k: nat)
    requires k < |rs| && Matches(rs[k], dep) && rs[k].id != ""
    requires forall j :: 0 <= j < k ==> !Matches(rs[j], dep)
    ensures EdgeFor(rs, r, dep) == [FlowEdge(rs[k].id + "-" + r.id, rs[k].id, r.id)]
  {
    assert FindFrom(rs, dep, 0).Some?;
  }

  /** A resource that lists its own address as a dependency gets an edge to itself. */
  lemma SelfEdge(r: ResourceNode)
    requires r.id == r.address && r.address != "" && r.dependencies == [r.address]
    ensures EdgesOf([r]) == [FlowEdge(r.id + "-" + r.id, r.id, r.id)]
  {
    var e := FlowEdge(r.id + "-" + r.id, r.id, r.id);
    assert FindMatch([r], r.address) == Some(0);
    assert EdgeFor([r], r, r.address) == [e];
    assert DepEdges([r], r, 1) == [e];
    assert EdgesUpTo([r], 1) == EdgesUpTo([r], 0) + DepEdges([r], [r][0], 1);
  }

  /** A dependency listed twice gives the same edge twice. */
  lemma RepeatedEdge(a: ResourceNode, b: ResourceNode)
    requires a.id != "" && b.dependencies == [a.id, a.id]
    ensures var e := FlowEdge(a.id + "-" + b.id, a.id, b.id);
            DepEdges([a, b], b, 2) == [e, e]
  {
    var e := FlowEdge(a.id + "-" + b.id, a.id, b.id);
    assert FindMatch([a, b], a.id) == Some(0);
    assert EdgeFor([a, b], b, a.id) == [e];
    assert DepEdges([a, b], b, 1) == [e];
  }
}
