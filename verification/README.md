# TerraLends plan pipeline, in Dafny

TerraLends is a browser app that shows a Terraform plan (the JSON that
`terraform show -json` prints) as a graph. This project models the logic
behind that graph and proves properties about it:

- **Action resolution.** The raw change actions of a resource are reduced to
  one displayed action.
- **Dependency extraction.** The module tree of the plan's configuration is
  walked, and each resource gets a `module.X.module.Y` address prefix. Every
  JSON expression tree is walked too, collecting `references` strings.
- **Normalisation.** Each resource change becomes one resource node with its
  dependencies, and the per-action counters are kept.
- **Classification and layout.**
  - Resource types are split into a service and a resource name.
  - Resources are grouped provider → service → resource, in first-seen order.
  - Containers and leaves are placed on an integer grid.
  - Dependency strings become edges by suffix match.
- **The attribute diff of the detail panel.** Keys are classified as add,
  remove, change or same, then stably sorted.
- **The resource list.** The list is narrowed by an action filter and a
  search, bucketed by action, and shown in fixed section order.
- **The history of recently opened plans.** The stored list is a field of a
  class. New entries are prepended, the list is capped at ten, and entries
  are removed or looked up by id.
- **The router.** It maps paths to pages and back.

Modules, one per file:

| file | module | what it holds |
|---|---|---|
| `collections.dfy` | `Collections` | `Option`, `Dedup` (a `Set`'s iteration order), `Filter`, `MapSeq`, and their lemmas |
| `text.dfy` | `Text` | `startsWith`, `endsWith`, `includes`, `split`, `join`, ASCII `toLowerCase` |
| `json.dfy` | `Json` | JSON values; objects are ordered member lists |
| `terraform.dfy` | `Terraform` | the plan, configuration and resource-node types |
| `primary_action.dfy` | `PrimaryActions` | `getPrimaryAction` |
| `references.dfy` | `References` | `extractReferencesFromExpressions` |
| `dependencies.dfy` | `Dependencies` | `extractDependencies` |
| `normalize.dfy` | `Normalize` | `parseTerraformPlan` |
| `classify.dfy` | `ServiceClassifier` | `getShortProviderName`, `extractServiceFromType` |
| `grouping.dfy` | `Grouping` | the provider → service → resource hierarchy |
| `geometry.dfy` | `Geometry` | sizes, the service grid, positions, containment and separation |
| `edges.dfy` | `Edges` | the edge loop |
| `flow.dfy` | `FlowElements` | `toReactFlowElements`: nodes and edges |
| `attribute_diff.dfy` | `AttributeDiff` | the `changes` computation of `DetailPanel` |
| `resource_list.dfy` | `ResourceList` | `filteredResources`, `groupedResources`, section order |
| `history.dfy` | `History` | `src/utils/storage.ts` over a `HistoryStore` class |
| `router.dfy` | `Router` | `parsePath` and the path built by `navigate` |

The form follows the code:

- Loops that push, count or accumulate are methods with loop invariants.
  Each is proved equal to a specification function. The properties are then
  proved about that function.
- The per-column and per-row maxima are computed in place in two `array`s,
  as the code does.
- The stored history is a field that the methods reassign.

## Model

| member | source | states |
|---|---|---|
| PrimaryActions.PrimaryAction | src/utils/parsePlan.ts:12-18 | the result is one of the actions, or no-op when none applies, and no action has a higher priority (delete > create > update > read > no-op) |
| PrimaryActions.OrderIndependent | src/utils/parsePlan.ts:12-18 | only the set of actions matters, not their order or repetition |
| PrimaryActions.Examples | src/utils/parsePlan.ts:12-18 | create+delete in either order gives delete; no actions gives no-op |
| References.ExtractReferencesFromExpressions | src/utils/parsePlan.ts:67-96 | the pushed list equals the pre-order walk `Refs`, holds no variable or local reference, and holds a string exactly when it is a kept entry of a `references` array somewhere in the expressions |
| References.Traverse | src/utils/parsePlan.ts:70-92 | `traverse` appends exactly the walk of its argument to what was collected before |
| References.TraverseItems | src/utils/parsePlan.ts:73-75 | the `forEach` over an array appends the walks of its elements in order |
| References.CollectOwn | src/utils/parsePlan.ts:81-87 | the loop over `references` appends the kept string entries in order |
| References.TraverseMembers | src/utils/parsePlan.ts:89-91 | the loop over `Object.values` appends the walks of the member values in order |
| References.ScalarItems | src/utils/parsePlan.ts:71 | scalars contribute nothing to the walk |
| References.DropsVariablesAndLocals | src/utils/parsePlan.ts:81-87 | `{references:["var.x","aws_instance.a","local.y"]}` gives exactly `["aws_instance.a"]` |
| References.RefEntryIsResource | src/utils/parsePlan.ts:81-87 | whatever a tree leads to passed the `var.`/`local.` filter of some `references` array |
| References.OnlyResourceReferences | src/utils/parsePlan.ts:70-92 | no reference collected anywhere in the tree starts with `var.` or `local.` |
| References.KeptIff | src/utils/parsePlan.ts:81-87 | one `references` array contributes a string exactly when it is one of its string entries and not a `var.`/`local.` reference |
| References.RefsIff | src/utils/parsePlan.ts:70-92 | the walk collects a string exactly when it is a kept string entry of the `references` array of some object reachable through array elements and member values, at any depth |
| References.ItemsIff | src/utils/parsePlan.ts:73-75 | the walk over an array's elements collects exactly what some element leads to |
| References.MembersIff | src/utils/parsePlan.ts:89-91 | the walk over an object's member values collects exactly what some member value leads to |
| References.KeepsDuplicates | src/utils/parsePlan.ts:82-85 | the same reference found under two fields is kept twice |
| Dependencies.ResourceEntries | src/utils/parsePlan.ts:24-47 | one `set` per resource, in order, under `<prefix>.<address>` (the bare address at the root), with `depends_on` followed by the extracted references |
| Dependencies.ExtractDependencies | src/utils/parsePlan.ts:21-64 | the built map is the one the `set` calls of the module walk give; absent configuration gives the empty map |
| Dependencies.ProcessModule | src/utils/parsePlan.ts:49-60 | a module sets its own resources, then each module call's body under `module.<name>` appended to the prefix; an absent module sets nothing |
| Dependencies.ProcessResources | src/utils/parsePlan.ts:24-47 | the loop performs exactly the `set` calls `ResourceEntries` lists, in order |
| Dependencies.CollectResourceDeps | src/utils/parsePlan.ts:32-43 | the list for one resource is its `depends_on` entries followed by its expression references |
| Dependencies.ApplyAppend | src/utils/parsePlan.ts:45 | applying two runs of `set` calls is applying them one after the other |
| Dependencies.KeysAreSetAddresses | src/utils/parsePlan.ts:45 | the map's keys are exactly the addresses that were set |
| Dependencies.LastDeclarationWins | src/utils/parsePlan.ts:45 | when an address is set more than once, the value set last is the one kept |
| Dependencies.PathPrefixExtend | src/utils/parsePlan.ts:56 | extending a module path by one call appends `.module.<name>` to the prefix, or gives `module.<name>` at the root |
| Dependencies.DeclaredResourceIsSet | src/utils/parsePlan.ts:24-60 | every resource declared at any depth of the module tree is set under its module path's prefix with its dependency list |
| Dependencies.SetEntryIsKey | src/utils/parsePlan.ts:45 | every set address is a key of the map |
| Dependencies.NestedModuleKey | src/utils/parsePlan.ts:28-56 | a resource inside module call `m2` inside `m1` is keyed `module.m1.module.m2.<address>` |
| Normalize.CountOf | src/utils/parsePlan.ts:124-139 | a per-action counter never exceeds the number of nodes |
| Normalize.ParseTerraformPlan | src/utils/parsePlan.ts:106-165 | one node per change in input order, with `id == address`, the primary action, the change's fields and the dependencies looked up under the change's key; the counters are those of the node list; absent `resource_changes` gives no nodes and zero counts |
| Normalize.CountSnoc | src/utils/parsePlan.ts:124-139 | each node raises only the counter of its own action, by one |
| Normalize.SummaryTotal | src/utils/parsePlan.ts:107-139 | the five counters sum to the number of nodes |
| Normalize.ModuleAddressIgnored | src/utils/parsePlan.ts:141-143 | the lookup key uses mode, type and name only, so two changes differing in module address get the same dependencies |
| Normalize.OneModuleEntry | src/utils/parsePlan.ts:49-60 | a configuration with one resource inside module `m1` makes the one `set` call `module.m1.aws_instance.foo` |
| Normalize.ModuleResourceGetsNoDependencies | src/utils/parsePlan.ts:141-155 | a resource declared only inside a module is stored under its module-qualified address but looked up under the bare one, so it gets `[]` |
| ServiceClassifier.ShortProviderName | src/utils/parsePlan.ts:168-172 | the result is the last `/`-segment: a suffix of the provider, with no `/`, preceded by `/` unless it is the whole string |
| ServiceClassifier.ShortProviderNameUnique | src/utils/parsePlan.ts:168-172 | those three properties determine the short name |
| ServiceClassifier.ShortNameOfRegistryAddress | src/utils/parsePlan.ts:169-171 | `registry.terraform.io/hashicorp/google` and `…/aws` shorten to `google` and `aws` |
| ServiceClassifier.StripProvider | src/utils/parsePlan.ts:212-221 | the `<shortProvider>_` prefix is removed first, else `google_`, else `aws_`, else `azurerm_`, else nothing |
| ServiceClassifier.VersionFrom | src/utils/parsePlan.ts:233-239 | the scan returns one past the first `v<digits>` segment from its start to before the last segment, or 1 when there is none |
| ServiceClassifier.VersionEnd | src/utils/parsePlan.ts:233-239 | `serviceEndIndex` is 1 exactly when no middle segment is a version token, else one past the first such segment |
| ServiceClassifier.ServiceEndIndex | src/utils/parsePlan.ts:233-239 | the loop with `break` computes `VersionEnd` |
| ServiceClassifier.FirstKnown | src/utils/parsePlan.ts:242-261 | the index found is the first table entry that matches as a prefix followed by the end or `_`; none means no entry matches |
| ServiceClassifier.FindKnownService | src/utils/parsePlan.ts:251-261 | the loop over the table finds `FirstKnown` |
| ServiceClassifier.ExtractServiceFromType | src/utils/parsePlan.ts:208-268 | the method computes the function `Classify` that the lemmas below are about |
| ServiceClassifier.SplitSingle | src/utils/parsePlan.ts:225-229 | a remainder splits into one part exactly when it has no `_`, and then it is both service and resource name |
| ServiceClassifier.JoinOfSeveral | src/utils/parsePlan.ts:264-265 | joining two or more parts gives a string containing `_`, so it is never empty |
| ServiceClassifier.FallbackRedundant | src/utils/parsePlan.ts:265 | the `\|\| parts[parts.length - 1]` fallback never changes the resource name |
| ServiceClassifier.Recombine | src/utils/parsePlan.ts:225-267 | service `_` resource name rebuilds the remainder, except when the remainder is exactly a known service, whose last word is then the resource name |
| ServiceClassifier.RecombineKnown | src/utils/parsePlan.ts:251-261 | the known-service branch splits the remainder at the end of the entry |
| ServiceClassifier.RecombineDefault | src/utils/parsePlan.ts:233-267 | without a matching table entry, the service is the segments before `serviceEndIndex` and the resource name the segments from it on, joined with `_`, and the two together give the remainder |
| ServiceClassifier.DefaultWithoutVersion | src/utils/parsePlan.ts:233-267 | with no matching table entry and no `v<digits>` segment between the first and the last, the service is the first segment and the resource name the rest |
| ServiceClassifier.DefaultWithVersion | src/utils/parsePlan.ts:233-267 | with no matching table entry, the first `v<digits>` segment between the first and the last ends the service |
| ServiceClassifier.FirstKnownWins | src/utils/parsePlan.ts:251-261 | a remainder with `_` that matches table entry k, and no earlier one, is filed under entry k, overriding the version rule |
| ServiceClassifier.FirstMatchIsFound | src/utils/parsePlan.ts:251-254 | the first matching entry is the one the table scan finds |
| ServiceClassifier.WholeKnownService | src/utils/parsePlan.ts:257 | a remainder equal to a known entry takes that entry's last word as resource name |
| ServiceClassifier.CloudRunJob | src/utils/parsePlan.ts:205-261 | `google_cloud_run_v2_job` gives `cloud_run` / `v2_job`, while the version rule alone would give `cloud_run_v2` (the comment at :206 is not what the code does) |
| ServiceClassifier.CloudRunParts | src/utils/parsePlan.ts:225 | `cloud_run_v2_job` splits into four parts |
| ServiceClassifier.CloudRunRemaining | src/utils/parsePlan.ts:251-261 | the remainder `cloud_run_v2_job` is filed under `cloud_run` |
| ServiceClassifier.S3Bucket | src/utils/parsePlan.ts:207-261 | `aws_s3_bucket` with an aws provider gives `s3_bucket` / `bucket` |
| ServiceClassifier.S3BucketRemaining | src/utils/parsePlan.ts:251-258 | the remainder `s3_bucket` gives `s3_bucket` / `bucket` |
| ServiceClassifier.S3BucketParts | src/utils/parsePlan.ts:225 | `s3_bucket` splits into two parts |
| ServiceClassifier.S3BucketKnown | src/utils/parsePlan.ts:247 | `s3_bucket` is the first table entry that matches it |
| ServiceClassifier.NoKnownBeforeS3 | src/utils/parsePlan.ts:242-247 | no table entry before `s3_bucket` matches a remainder starting with `s` |
| Grouping.BuildHierarchy | src/utils/parsePlan.ts:284-299 | the loop of `has`/`set`/`push` builds the first-seen-order `Hierarchy` of the placements |
| Grouping.HierarchySnoc | src/utils/parsePlan.ts:290-298 | one more resource is one step of the loop: it joins its provider and service, creating them at the end when new |
| Grouping.HierarchySeen | src/utils/parsePlan.ts:293-298 | a resource of a known provider is added inside that provider's group |
| Grouping.HierarchyNew | src/utils/parsePlan.ts:290-298 | a resource of a new provider opens a provider group at the end |
| Grouping.ServicesOfSnoc | src/utils/parsePlan.ts:295-298 | one more resource changes only its own provider's service groups |
| Grouping.ServicesOfSeen | src/utils/parsePlan.ts:298 | a resource of a known service is pushed onto the end of that service's list |
| Grouping.ServicesOfNew | src/utils/parsePlan.ts:295-298 | a resource of a new service opens a service group at the end |
| Grouping.ServicesOfOther | src/utils/parsePlan.ts:293-298 | a resource of another provider leaves a provider's services alone |
| Grouping.ProvidersInFirstSeenOrder | src/utils/parsePlan.ts:284-292 | providers appear once each, in the order their first resource appears |
| Grouping.ServicesInFirstSeenOrder | src/utils/parsePlan.ts:295-297 | within a provider, services appear once each, in first-seen order |
| Grouping.GroupsMatchKeys | src/utils/parsePlan.ts:286-298 | every resource of a group is an input resource with that group's provider and service keys |
| Grouping.PlacementAt | src/utils/parsePlan.ts:286-288 | the placement at index j carries resource j and its two keys |
| Grouping.PlacementsResources | src/utils/parsePlan.ts:286 | placing neither loses nor adds a resource |
| Grouping.AddResourceBag | src/utils/parsePlan.ts:290-298 | one loop step adds exactly its resource to the hierarchy |
| Grouping.EveryResourceOnce | src/utils/parsePlan.ts:284-299 | the hierarchy holds exactly the input resources, as a multiset |
| Geometry.CeilDivBounds | src/utils/parsePlan.ts:325-336 | `Math.ceil(a / b)` is the least q with q·b ≥ a |
| Geometry.RowBelowCeil | src/utils/parsePlan.ts:336-344 | the row of every index is within the row count |
| Geometry.ServiceSizeValues | src/utils/parsePlan.ts:324-327 | a service is 488 wide and 30 + r·85 + (r+1)·16 = 46 + 101·r tall, r = ⌈k/2⌉ |
| Geometry.LeafInsideService | src/utils/parsePlan.ts:451-455 | resource i at (16 + (i mod 2)·236, 46 + ⌊i/2⌋·101) lies inside its service box, below the header, with 16 units of margin |
| Geometry.LeavesApart | src/utils/parsePlan.ts:452-455 | two leaves of a service are at least 16 apart |
| Geometry.CeilSqrtBounds | src/utils/parsePlan.ts:335 | the integer ceiling square root is the least r with r·r ≥ m |
| Geometry.Cols | src/utils/parsePlan.ts:335 | there is always at least one column |
| Geometry.GridShape | src/utils/parsePlan.ts:335-336 | cols is the least c ≥ 1 with c² ≥ 2n, and rows = ⌈n / cols⌉ holds every service |
| Geometry.OneServiceTwoColumns | src/utils/parsePlan.ts:335-336 | a single service gets two columns and one row |
| Geometry.ColMaxBound | src/utils/parsePlan.ts:342-347 | the column maximum bounds every box of that column |
| Geometry.RowMaxBound | src/utils/parsePlan.ts:342-347 | the row maximum bounds every box of that row |
| Geometry.FillMaxima | src/utils/parsePlan.ts:339-347 | the `forEach` leaves every column width and row height at the maximum over its boxes |
| Geometry.LayoutGrid | src/utils/parsePlan.ts:333-361 | the column and row positions are the prefix sums of the maxima plus 16, starting at 16 and 56, and the provider size is the last position plus 16 |
| Geometry.ColPosGrows | src/utils/parsePlan.ts:350-353 | each column ends at least 16 before any later one starts |
| Geometry.RowPosGrows | src/utils/parsePlan.ts:355-358 | each row ends at least 16 before any later one starts |
| Geometry.ServiceBoxAt | src/utils/parsePlan.ts:404-409 | service i sits at the positions of column i mod cols and row ⌊i / cols⌋ |
| Geometry.CellBox | src/utils/parsePlan.ts:404-409 | reading the positions off the laid-out grid gives that service box |
| Geometry.ColumnInsideProvider | src/utils/parsePlan.ts:350-360 | a service's column fits inside the provider width with 16 of margin |
| Geometry.RowInsideProvider | src/utils/parsePlan.ts:355-361 | a service's row fits below the header inside the provider height with 16 of margin |
| Geometry.ServiceInsideProvider | src/utils/parsePlan.ts:350-409 | every service box lies inside its provider box, below the header, with 16 of margin |
| Geometry.ServicesApart | src/utils/parsePlan.ts:403-409 | two service boxes of the same provider do not overlap: they are at least 16 apart |
| Geometry.ProvidersApart | src/utils/parsePlan.ts:369-472 | each provider box ends at least 30 above every later one: its y is the previous y plus height plus 30 |
| Edges.FindFrom | src/utils/parsePlan.ts:480-482 | `find` returns the first resource in list order whose address ends with the dependency or whose id equals it |
| Edges.BuildEdges | src/utils/parsePlan.ts:476-494 | the nested loop produces `EdgesOf`: per resource, per dependency, the edge from the first match |
| Edges.EdgeForEndpoints | src/utils/parsePlan.ts:480-491 | an edge of one dependency targets the dependent, comes from a matching resource with a non-empty id, and is named `<source>-<target>` |
| Edges.DepEdgesEndpoints | src/utils/parsePlan.ts:479-493 | all edges of one resource target it and come from resource ids |
| Edges.EdgeEndpoints | src/utils/parsePlan.ts:476-494 | every edge endpoint is a resource id and every edge is named `<source>-<target>` |
| Edges.UnmatchedGivesNoEdge | src/utils/parsePlan.ts:480-484 | a dependency nothing matches gives no edge |
| Edges.FirstMatchIsSource | src/utils/parsePlan.ts:480-491 | the first match in list order is the source |
| Edges.SelfEdge | src/utils/parsePlan.ts:476-494 | a resource depending on its own address gets an edge to itself |
| Edges.RepeatedEdge | src/utils/parsePlan.ts:476-494 | a dependency listed twice gives the same edge twice |
| FlowElements.SizesOf | src/utils/parsePlan.ts:323-329 | one size per service, in order, determined by its resource count |
| FlowElements.ProviderHeightsAt | src/utils/parsePlan.ts:361 | one height per provider, in order |
| FlowElements.ToFlowElements | src/utils/parsePlan.ts:279-497 | the nodes are the laid-out nodes of the first-seen hierarchy and the edges are `EdgesOf` the resources |
| FlowElements.PlaceProviders | src/utils/parsePlan.ts:310-473 | the loop over providers with its running y offset produces `NodesOf` the hierarchy |
| FlowElements.PlaceProvider | src/utils/parsePlan.ts:313-470 | one provider: its box at the current y, its label, and its services on the grid; the height returned is the provider height |
| FlowElements.PlaceService | src/utils/parsePlan.ts:403-470 | one service: its box at its grid cell, its label, and its leaves |
| FlowElements.ServiceInfos | src/utils/parsePlan.ts:315-329 | the precomputed sizes are `SizesOf` the services |
| FlowElements.PlaceResources | src/utils/parsePlan.ts:451-469 | the leaves of a service, two to a row, in resource order |
| FlowElements.LeafNodesResources | src/utils/parsePlan.ts:451-469 | the leaves of a service carry its resources, in order |
| FlowElements.ServiceNodesResources | src/utils/parsePlan.ts:411-469 | the nodes of a service (box, label, leaves) carry exactly its resources, in order |
| FlowElements.LeavesAreTheResources | src/utils/parsePlan.ts:451-469 | the leaves carry exactly the plan's resources: each once, none added |
| FlowElements.LeafNodesUnder | src/utils/parsePlan.ts:457-467 | each leaf has its resource's id, the service as parent and the service name |
| FlowElements.ServiceLeavesKeyed | src/utils/parsePlan.ts:457-467 | every leaf of a service is parented to `provider-<provider>-<service>` of its own resource |
| FlowElements.LeavesInTheirServices | src/utils/parsePlan.ts:457-467 | every leaf is named after its resource and sits in the service box of that resource's provider and service |
| FlowElements.ResourceHasLeaf | src/utils/parsePlan.ts:451-469 | every resource of the plan has a leaf with its id |
| FlowElements.EdgesJoinLeaves | src/utils/parsePlan.ts:476-494 | both ends of every edge are ids of leaf nodes |
| AttributeDiff.Classified | src/components/DetailPanel.tsx:33-46 | one row per key |
| AttributeDiff.ClassifiedAt | src/components/DetailPanel.tsx:33-46 | row i is the classification of key i |
| AttributeDiff.ComputeChanges | src/components/DetailPanel.tsx:21-55 | the `changes` computation equals `AttributeChanges`: a null record reads as empty, the key set is classified, then sorted |
| AttributeDiff.ClassifyKeys | src/components/DetailPanel.tsx:33-46 | the loop pushes the classification of every key of the set, in order |
| AttributeDiff.KeyUnionMembers | src/components/DetailPanel.tsx:24 | the key set holds each key of `before` or `after` once, and no other key |
| AttributeDiff.ClassifiedKeys | src/components/DetailPanel.tsx:33-46 | the rows' keys are the key set, in order |
| AttributeDiff.EveryKeyOnce | src/components/DetailPanel.tsx:22-52 | every key of `before` or `after` has exactly one row, and no other key has one |
| AttributeDiff.EmptyDiff | src/components/DetailPanel.tsx:22-46 | the diff is empty exactly when both records are empty, a null record counting as empty |
| AttributeDiff.RowsClassified | src/components/DetailPanel.tsx:37-45 | a key not in `before` is add with `before` undefined; in `before` but not `after` is remove with `after` undefined; otherwise change exactly when the values differ, else same |
| AttributeDiff.NullBeforeIsNotAdded | src/components/DetailPanel.tsx:37 | a key present in `before` with a null value is never add |
| AttributeDiff.MemberOrderMatters | src/components/DetailPanel.tsx:41 | objects with the same members in another order are a change |
| AttributeDiff.SortByKindSorted | src/components/DetailPanel.tsx:49-52 | after sorting the kinds never decrease |
| AttributeDiff.SortByKindPermutation | src/components/DetailPanel.tsx:49-52 | sorting neither drops nor duplicates a row |
| AttributeDiff.SortByKindStable | src/components/DetailPanel.tsx:49-52 | the rows of one kind keep their relative order |
| AttributeDiff.SortedRowFromInput | src/components/DetailPanel.tsx:49-52 | every sorted row is an input row |
| AttributeDiff.SortOne | src/components/DetailPanel.tsx:49-52 | a single row is already sorted |
| AttributeDiff.FilterKinds | src/components/DetailPanel.tsx:49-52 | the rows of kind k among those of kind j are those of kind j when j = k, else none |
| AttributeDiff.RowsSortedByKind | src/components/DetailPanel.tsx:49-52 | the rows come in the order add, remove, change, same |
| AttributeDiff.RowsOfAKindInKeyOrder | src/components/DetailPanel.tsx:24-52 | within a kind, rows keep key-set order: `before`'s keys first, then the keys only `after` has |
| ResourceList.FilteredIsSubsequence | src/components/ResourceList.tsx:24-41 | the filtered list is an order-preserving subsequence of the plan's resources |
| ResourceList.AllAndEmptySearchKeepEverything | src/components/ResourceList.tsx:27-39 | filter `all` with an empty search keeps every resource |
| ResourceList.FilteredMembers | src/components/ResourceList.tsx:25-40 | a resource is kept exactly when its action passes the filter and it matches the search |
| ResourceList.SearchIsSubstring | src/components/ResourceList.tsx:31-38 | a non-empty search matches exactly when the lower-cased search occurs in the lower-cased type, name or address |
| ResourceList.SearchIgnoresCase | src/components/ResourceList.tsx:32-36 | the search does not distinguish upper and lower case |
| ResourceList.Buckets.Push | src/components/ResourceList.tsx:54 | pushing appends to the bucket of that action and leaves the others |
| ResourceList.GroupByAction | src/components/ResourceList.tsx:44-58 | each bucket holds exactly the filtered resources of its action, in order, and the bucket sizes sum to the filtered count |
| ResourceList.SectionsShown | src/components/ResourceList.tsx:113-115 | sections come in the order delete, create, update, read; a section shows exactly when its bucket is non-empty, and no-op never shows |
| ResourceList.ShownUnlessNoOp | src/components/ResourceList.tsx:44-58 | every filtered resource lands in its action's bucket, which is shown unless the action is no-op |
| History.CountChanges | src/utils/storage.ts:31-44 | the counting loop computes `SummaryOf` the changes; absent `resource_changes` gives zeros |
| History.SummaryCounts | src/utils/storage.ts:37-44 | the create counter counts the changes that include create; the three counters together count the changes that create, delete or update |
| History.SummaryBounded | src/utils/storage.ts:37-44 | the counters sum to at most the number of changes |
| History.ReplaceCountsAsCreate | src/utils/storage.ts:40-41 | a delete+create replacement counts as create here, though the graph shows it as delete |
| History.Take | src/utils/storage.ts:56-63 | `slice(0, n)` is a prefix of at most n entries |
| History.NewHistoryShape | src/utils/storage.ts:56 | the new list is the new entry followed by the previous entries in order, truncated to ten, so the oldest are dropped |
| History.FirstIndex | src/utils/storage.ts:82 | the position found is the first whose entry has the id, and none means no entry has it |
| History.FindById | src/utils/storage.ts:80-83 | the result is the first entry with the id, or none exactly when no entry has it |
| History.RemovedById | src/utils/storage.ts:70-74 | removing by id drops every entry with that id and keeps the others in order |
| History.RemovedIdNotFound | src/utils/storage.ts:70-83 | after a removal, looking up the removed id finds nothing |
| History.AddedEntryFound | src/utils/storage.ts:56-83 | looking up the id of the entry just added finds that entry, whichever write succeeded |
| History.HistoryStore.constructor | src/utils/storage.ts:3 | the store starts with the given slot contents |
| History.HistoryStore.AddToHistory | src/utils/storage.ts:28-68 | the entry carries the counted summary; the stored list becomes the new ten-entry list, or its first three when the first write fails; the returned entry heads the stored list; when both writes fail nothing is stored |
| History.HistoryStore.RemoveFromHistory | src/utils/storage.ts:70-74 | the stored list becomes the read list without the entries with the id; a failed write stores nothing |
| History.HistoryStore.ClearHistory | src/utils/storage.ts:76-78 | the slot is emptied, and reading the history then gives `[]` |
| Router.ParsePath | src/utils/router.ts:7-17 | a plan route comes only from a path that is `/plans/` followed by a non-empty id without `/` |
| Router.ParsePlanIff | src/utils/router.ts:11-14 | a path parses to the plan route with id X exactly when it is `/plans/X` with X non-empty and free of `/` |
| Router.PathFor | src/utils/router.ts:31-37 | parsing the written path returns the route whenever the route is home or its id is one segment; otherwise it gives home |
| Router.PathForInjective | src/utils/router.ts:32-37 | different routes are written as different paths |
| Router.HomePaths | src/utils/router.ts:11-16 | `/`, `/plans`, `/plans/`, `/plans/a/` and `/plans/a/b` parse to home, `/plans/a` to the plan `a` |
| Text.Split | src/utils/parsePlan.ts:225 | `split('_')` gives at least one part, none containing `_`; empty parts are kept |
| Text.JoinSplit | src/utils/parsePlan.ts:225-265 | joining the parts of a split gives the string back |
| Text.ToLower | src/components/ResourceList.tsx:32-36 | lower-casing keeps the length and maps each character on its own |
| Text.ContainsAt | src/components/ResourceList.tsx:34-36 | `includes` holds exactly when the text occurs at some position |
| Collections.DedupSpec | src/components/DetailPanel.tsx:24 | a `Set` built from a list holds every value of the list once, and nothing else |
| Collections.FilterMembers | src/components/ResourceList.tsx:25 | `filter` keeps exactly the elements that pass the test |
| Collections.FilterIsSubsequence | src/utils/storage.ts:72 | `filter` keeps the kept elements in their order |

## Left out

- **Styling.** The provider colours (`hashString`, `getProviderColor`) and `console.log` are not modelled. Neither are React Flow's presentation fields (`style`, `extent`, `draggable`, `animated`) or label text formatting (emoji, `toUpperCase`, underscore replacement). Label nodes are kept, at their fixed offsets.
- **UI.** The React components, hooks and JSX are not modelled, and neither is `formatValue`. `GraphView.tsx`, `ResourceNode.tsx`, `PlanPage.tsx`, `HomePage.tsx`, `App.tsx` and `FileUpload.tsx` are not part of this model.
- **Browser services.** These are parameters or fields:
  - `localStorage` is the `slot` field of `HistoryStore`, and a quota error is the boolean `writeFits`/`retryFits` parameter.
  - `JSON.parse` failing is the `Unreadable` slot, which reads as `[]`. Stored text that parses to something other than a list of entries is not modelled.
  - `crypto.randomUUID` and `Date.now` are the `id` and `timestamp` parameters.
  - The history key `terralends_history` is implicit in having one slot.
  - `window.location.pathname` is the argument of `ParsePath`, and `history.pushState` is the path `PathFor` returns.
- **URL resolution.** The round trip `ParsePath(PathFor(r))` treats the pushed string as the next `window.location.pathname`. A browser resolves the pushed URL first: it cuts off `?query` and `#fragment`, percent-encodes spaces and non-ASCII characters and resolves dot segments. An id containing such characters would not come back unchanged. Plan ids come from `crypto.randomUUID`, which produces only hexadecimal digits and `-`.
- **Router state.** The `useState` route, the `popstate` listener and `setRoute` are not modelled. After `navigate` the route state equals the argument by assignment.
- **Math.sqrt.** `Math.sqrt` is modelled as an exact integer ceiling square root. This is exact for the service counts concerned.
- **JSON.** JSON numbers are integers. `JSON.stringify` inequality is modelled as structural inequality on the JSON datatype, which for objects includes member order.
- **Integer-like keys.** JavaScript visits an object's integer-like keys first, in ascending numeric order, in `Object.keys`, `Object.values`, `Object.entries` and `JSON.stringify`. The model visits members in document order everywhere: the key set of the attribute diff, the member walk of the reference collection and the module calls. Terraform attribute and module names are not integer-like, so the orders agree on real plans.
- **Records.** A record with duplicate keys reads its first member.
- **Object keys in `key in before`.** DetailPanel tests keys with `in`, which also sees inherited properties such as `toString`. The model tests own keys only.
- **toLowerCase.** `toLowerCase` is ASCII lower-casing; Unicode case mapping is not modelled.
- **Maps.** The dependency `Map` is a Dafny `map`, because only `get` reads it. The hierarchy `Map`s are ordered sequences of groups, because their insertion order is observed.
- **Module configuration.** A module's absent `resources` or `module_calls` is modelled as an empty list, which the code treats alike.
- History.HistoryStore.RemoveFromHistory: a failed write is modelled as the returned `false`, not as the exception the code lets propagate.
- History.HistoryStore.AddToHistory: both writes failing is the `QuotaExceeded` result, standing for the propagated exception. The `console.warn` is not modelled.
