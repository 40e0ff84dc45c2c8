/**
 The side list of resources (src/components/ResourceList.tsx): the plan's
 resources narrowed by an action filter and a case-insensitive search, then
 bucketed by action, and the buckets shown as sections in the fixed order
 delete, create, update, read.
 */
module ResourceList {
  import opened Collections
  import opened Text
  import opened Terraform

  /** The filter buttons: every action, or one. */
  datatype ActionFilter = All | Only(action: Action)

  /** The search test: an empty search matches everything. */
  predicate MatchesSearch(r: ResourceNode, search: string) {
    search == [] ||
      var searchLower := ToLower(search);
      Contains(ToLower(r.resourceType), searchLower)
      || Contains(ToLower(r.name), searchLower)
      || Contains(ToLower(r.address), searchLower)
  }

  /** The callback given to `plan.resources.filter`. */
  predicate Keep(filter: ActionFilter, search: string, r: ResourceNode) {
    (filter.All? || r.action == filter.action) && MatchesSearch(r, search)
  }

  function KeepFor(filter: ActionFilter, search: string): ResourceNode -> bool {
    (r: ResourceNode) => Keep(filter, search, r)
  }

  /** `filteredResources`. */
  function FilteredResources(resources: seq<ResourceNode>, filter: ActionFilter, search: string): seq<ResourceNode> {
    Filter(resources, KeepFor(filter, search))
  }

  /** The filtered list keeps resources of the plan, in the plan's order. */
  lemma FilteredIsSubsequence(resources: seq<ResourceNode>, filter: ActionFilter, search: string)
    ensures IsSubsequence(FilteredResources(resources, filter, search), resources)
  {
    FilterIsSubsequence(resources, KeepFor(filter, search));
  }

  /** With the filter on "all" and an empty search, nothing is dropped. */
  lemma AllAndEmptySearchKeepEverything(resources: seq<ResourceNode>)
    ensures FilteredResources(resources, All, "") == resources
  {
    FilterAll(resources, KeepFor(All, ""));
  }

  /** A resource is kept exactly when its action passes the filter and it matches the search. */
  lemma FilteredMembers(resources: seq<ResourceNode>, filter: ActionFilter, search: string, r: ResourceNode)
    ensures r in FilteredResources(resources, filter, search)
        <==> r in resources && (filter.Only? ==> r.action == filter.action) && MatchesSearch(r, search)
  {
    FilterMembers(resources, KeepFor(filter, search));
    assert KeepFor(filter, search)(r) == Keep(filter, search, r);
  }

  /**
   A non-empty search matches exactly when the lower-cased search occurs in
   the lower-cased type, name or address.
   */
  lemma SearchIsSubstring(r: ResourceNode, search: string)
    requires search != []
    ensures MatchesSearch(r, search)
        <==> Substring(ToLower(search), ToLower(r.resourceType))
             || Substring(ToLower(search), ToLower(r.name))
             || Substring(ToLower(search), ToLower(r.address))
  {
    ContainsAt(ToLower(r.resourceType), ToLower(search));
    ContainsAt(ToLower(r.name), ToLower(search));
    ContainsAt(ToLower(r.address), ToLower(search));
  }

  /** Upper and lower case are not told apart. */
  lemma SearchIgnoresCase(r: ResourceNode, search: string)
    ensures MatchesSearch(r, search) <==> MatchesSearch(r, ToLower(search))
  {
    if search != [] {
      LowerTwice(search);
    }
  }

  lemma LowerTwice(s: string)
    ensures ToLower(ToLower(s)) == ToLower(s)
  {
  }

  // ----- Buckets per action -----

  /** The `groups` record: one list per action. */
  datatype Buckets = Buckets(create: seq<ResourceNode>, update: seq<ResourceNode>, delete: seq<ResourceNode>,
                             read: seq<ResourceNode>, noOp: seq<ResourceNode>)
  {
    /** `groups[action]`. */
    function Bucket(a: Action): seq<ResourceNode> {
      match a
      case Create => create
      case Update => update
      case Delete => delete
      case Read => read
      case NoOp => noOp
    }

    /** `groups[action].push(r)`. */
    function Push(a: Action, r: ResourceNode): (b: Buckets)
      ensures b.Bucket(a) == Bucket(a) + [r]
      ensures forall other :: other != a ==> b.Bucket(other) == Bucket(other)
    {
      match a
      case Create => this.(create := create + [r])
      case Update => this.(update := update + [r])
      case Delete => this.(delete := delete + [r])
      case Read => this.(read := read + [r])
      case NoOp => this.(noOp := noOp + [r])
    }

    function TotalSize(): nat {
      |create| + |update| + |delete| + |read| + |noOp|
    }
  }

  function HasAction(a: Action): ResourceNode -> bool {
    (r: ResourceNode) => r.action == a
  }

  /** `groupedResources`: every resource is pushed onto the bucket of its action. */
  method GroupByAction(filtered: seq<ResourceNode>) returns (groups: Buckets)
    ensures forall a :: groups.Bucket(a) == Filter(filtered, HasAction(a))
    ensures groups.TotalSize() == |filtered|
  {
    groups := Buckets([], [], [], [], []);
    for i := 0 to |filtered|
      invariant forall a :: groups.Bucket(a) == Filter(filtered[..i], HasAction(a))
      invariant groups.TotalSize() == i
    {
      var resource := filtered[i];
      PushStep(filtered, i, groups);
      groups := groups.Push(resource.action, resource);
    }
    assert filtered[..|filtered|] == filtered;
  }

  /** Pushing the next resource keeps every bucket equal to the resources of its action so far. */
  lemma PushStep(filtered: seq<ResourceNode>, i: nat, groups: Buckets)
    requires i < |filtered|
    requires forall a :: groups.Bucket(a) == Filter(filtered[..i], HasAction(a))
    requires groups.TotalSize() == i
    ensures forall a :: groups.Push(filtered[i].action, filtered[i]).Bucket(a) == Filter(filtered[..i + 1], HasAction(a))
    ensures groups.Push(filtered[i].action, filtered[i]).TotalSize() == i + 1
  {
    var resource := filtered[i];
    var next := groups.Push(resource.action, resource);
    assert filtered[..i + 1] == filtered[..i] + [resource];
    forall a
      ensures next.Bucket(a) == Filter(filtered[..i + 1], HasAction(a))
    {
      FilterSnoc(filtered[..i], resource, HasAction(a));
    }
    PushSize(groups, resource.action, resource);
  }

  lemma PushSize(groups: Buckets, a: Action, r: ResourceNode)
    ensures groups.Push(a, r).TotalSize() == groups.TotalSize() + 1
  {
  }

  // ----- Sections -----

  /** The order in which sections are rendered; `no-op` has none. */
  const SectionOrder: seq<Action> := [Delete, Create, Update, Read]

  function NonEmpty(groups: Buckets): Action -> bool {
    (a: Action) => |groups.Bucket(a)| > 0
  }

  /** The sections that render: the non-empty buckets, in section order. */
  function VisibleSections(groups: Buckets): seq<Action> {
    Filter(SectionOrder, NonEmpty(groups))
  }

  /**
   Sections come in the order delete, create, update, read; a section shows
   exactly when its bucket is non-empty, and `no-op` never shows.
   */
  lemma SectionsShown(groups: Buckets)
    ensures IsSubsequence(VisibleSections(groups), [Delete, Create, Update, Read])
    ensures forall a :: a in VisibleSections(groups) <==> a != NoOp && |groups.Bucket(a)| > 0
  {
    FilterIsSubsequence(SectionOrder, NonEmpty(groups));
    FilterMembers(SectionOrder, NonEmpty(groups));
    forall a | a != NoOp
      ensures a in SectionOrder
    {
      match a
      case Delete => assert SectionOrder[0] == a;
      case Create => assert SectionOrder[1] == a;
      case Update => assert SectionOrder[2] == a;
      case Read => assert SectionOrder[3] == a;
    }
  }

  /** Every filtered resource lands in a shown section unless its action is `no-op`. */
  lemma ShownUnlessNoOp(filtered: seq<ResourceNode>, r: ResourceNode)
    requires r in filtered
    ensures var groups := Buckets(Filter(filtered, HasAction(Create)), Filter(filtered, HasAction(Update)),
                                  Filter(filtered, HasAction(Delete)), Filter(filtered, HasAction(Read)),
                                  Filter(filtered, HasAction(NoOp)));
            r in groups.Bucket(r.action) && (r.action in VisibleSections(groups) <==> r.action != NoOp)
  {
    var groups := Buckets(Filter(filtered, HasAction(Create)), Filter(filtered, HasAction(Update)),
                          Filter(filtered, HasAction(Delete)), Filter(filtered, HasAction(Read)),
                          Filter(filtered, HasAction(NoOp)));
    FilterMembers(filtered, HasAction(r.action));
    assert groups.Bucket(r.action) == Filter(filtered, HasAction(r.action));
    SectionsShown(groups);
  }
}
