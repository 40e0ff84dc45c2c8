/**
 The shapes of a Terraform plan document (the JSON output of
 `terraform show -json`) that the pipeline reads, and the normalised
 resource list it produces (src/types/terraform.ts).
 */
module Terraform {
  import opened Collections
  import opened Json

  /** The five raw change actions. */
  datatype Action = NoOp | Create | Read | Update | Delete

  datatype Mode = Managed | Data

  /** The `change` block of a resource change; `null` attribute records are `None`. */
  datatype ChangeBlock = ChangeBlock(
    actions: seq<Action>,
    before: Option<Record>,
    after: Option<Record>)

  /** One entry of `resource_changes`. */
  datatype ResourceChange = ResourceChange(
    address: string,
    moduleAddress: Option<string>,
    mode: Mode,
    resourceType: string,
    name: string,
    providerName: string,
    change: ChangeBlock)

  /** A resource declared in the configuration tree. */
  datatype ConfigurationResource = ConfigurationResource(
    address: string,
    mode: Mode,
    resourceType: string,
    name: string,
    providerConfigKey: string,
    expressions: Option<Record>,
    dependsOn: Option<seq<string>>)

  /**
   A module body: declared resources and module calls, in document order.
   An absent `resources` or `module_calls` field is the empty list: the code
   treats the two alike.
   */
  datatype ModuleConfiguration = ModuleConfiguration(
    resources: seq<ConfigurationResource>,
    moduleCalls: seq<ModuleCall>)

  /** One entry of `module_calls`: the call's name (its key), source and body. */
  datatype ModuleCall = ModuleCall(name: string, source: string, body: Option<ModuleConfiguration>)

  datatype Configuration = Configuration(rootModule: Option<ModuleConfiguration>)

  datatype TerraformPlan = TerraformPlan(
    formatVersion: string,
    terraformVersion: string,
    resourceChanges: Option<seq<ResourceChange>>,
    configuration: Option<Configuration>)

  /** The normalised form of one resource change. */
  datatype ResourceNode = ResourceNode(
    id: string,
    address: string,
    resourceType: string,
    name: string,
    provider: string,
    action: Action,
    moduleAddress: Option<string>,
    before: Option<Record>,
    after: Option<Record>,
    dependencies: seq<string>)

  /** Per-action counters of a parsed plan. */
  datatype Summary = Summary(create: nat, update: nat, delete: nat, noOp: nat, read: nat)

  datatype ParsedPlan = ParsedPlan(
    terraformVersion: string,
    resources: seq<ResourceNode>,
    summary: Summary)

  /** `plan.resource_changes ?? []`. */
  function ChangesOf(plan: TerraformPlan): seq<ResourceChange> {
    plan.resourceChanges.GetOr([])
  }
}
