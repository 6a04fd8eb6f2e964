/** A draft exploration boundary: its header, its budgets and the resources of its pack. */
module Boundary {
  import opened Catalog
  import opened Pack

  /** The scalar parts of the header that a review may never change. */
  datatype Immutable = Immutable(
    source: string,
    compilerVersion: string,
    specVersion: string,
    serverVersion: Option<string>,
    serverTier: Option<string>,
    lockFingerprint: string,
    roleFingerprint: string,
    serverAuthority: Option<string>)

  datatype OrganizationScope = OrganizationScope(mode: string, organizationId: string, acknowledgement: string)

  datatype TrustedContext = TrustedContext(provider: string, bindings: map<string, string>)

  /** Budgets by name; three of them are always present. */
  type Budgets = b: map<string, int> | REQUIRED_BUDGETS <= b.Keys
    witness map["max_groups" := 1, "max_top_n" := 1, "max_relationship_hops" := 1]

  const REQUIRED_BUDGETS: set<string> := {"max_groups", "max_top_n", "max_relationship_hops"}

  datatype Draft = Draft(
    schemaVersion: string,
    activation: string,
    profile: string,
    fixed: Immutable,
    timezone: Option<string>,
    organizationScope: Option<OrganizationScope>,
    trustedContext: TrustedContext,
    packName: string,
    budgets: Budgets,
    resources: seq<Resource>,
    unresolved: seq<string>)
  {
    predicate SingleOrganization() {
      organizationScope.Some?
    }
  }

  function BudgetOr(b: Budgets, key: string, fallback: string): int
    requires fallback in REQUIRED_BUDGETS
  {
    if key in b then b[key] else b[fallback]
  }

  function DerivedScopeHopLimit(b: Budgets): int {
    BudgetOr(b, "max_derived_scope_hops", "max_relationship_hops")
  }

  function AnalysisHopLimit(b: Budgets): int {
    BudgetOr(b, "max_analysis_relationship_hops", "max_relationship_hops")
  }

  /** The hard ceilings an owner may review a budget up to. */
  const CEILINGS: map<string, int> := map[
    "max_rows" := 100,
    "max_groups" := 500,
    "max_ranked_groups" := 10000,
    "max_top_n" := 100,
    "max_measures" := 5,
    "max_dimensions" := 4,
    "max_derived_scope_hops" := 3,
    "max_analysis_relationship_hops" := 3,
    "max_response_cells" := 4000,
    "max_response_bytes" := 1048576,
    "statement_timeout_ms" := 30000,
    "max_queries_per_session" := 1000,
    "rate_limit_per_minute" := 120]

  const MAX_SAFE_INTEGER := 9007199254740991

  predicate SafeInteger(n: int) {
    -MAX_SAFE_INTEGER <= n <= MAX_SAFE_INTEGER
  }

  /** Text and regular-expression checks whose verdicts this model takes as given. */
  datatype Rules = Rules(
    identifier: string -> bool,
    caption: string -> bool,
    packName: string -> bool,
    organizationId: string -> bool,
    numericBand: NumericBand -> Option<NumericBand>,
    autoBand: AutoBand -> Option<AutoBand>,
    subject: string -> DecisionSubject)

  /** What a review decision is about, read from its text. */
  datatype DecisionSubject =
    | BoundaryWide
    | AboutResource(id: string)
    | AboutRelationship(resource: string, id: string, target: string)
}
