/** The reviewed exploration boundary: its resources, their authority and the budgets. */
module Pack {
  import opened Catalog

  datatype SharedReference = SharedReference(mode: string, acknowledgement: string)

  datatype UnmatchedRows = Exclude | KeepNull | ReviewRequired

  datatype Relationship = Relationship(
    id: string,
    target: string,
    localColumns: seq<string>,
    targetColumns: seq<string>,
    countedEntity: string,
    pathDepth: Option<nat>,
    proof: Option<LinkProof>,
    nullable: Option<bool>,
    unmatchedRows: Option<UnmatchedRows>)
  {
    /** A relationship without a recorded depth is a direct one. */
    function Depth(): nat {
      pathDepth.GetOr(1)
    }

    /** The recorded links; an absent proof has none. */
    function Links(): seq<Link> {
      if proof.Some? then proof.value.links else []
    }
  }

  /** An operand of a derived measure. COUNT takes neither a field nor a relationship. */
  datatype BaseMeasure = BaseMeasure(function_: string, field: Option<string>, relationship: Option<string>)

  datatype DerivedMeasure =
    | PostAggregate(
        name: string, caption: string, shape: string, base: BaseMeasure, direction: Option<string>,
        windowSize: Option<int>)
    | ChildCount(name: string, caption: string, shape: string, childResource: string, relationship: string)
    | Ratio(
        name: string, caption: string, shape: string, numerator: BaseMeasure, denominator: BaseMeasure,
        nullPolicy: string)

  datatype NumericBand = NumericBand(
    name: string, caption: string, field: string, relationship: Option<string>, edges: seq<real>,
    bucketLabels: seq<string>)

  datatype AutoBand = AutoBand(
    field: string, methods: seq<string>, minBuckets: int, maxBuckets: int,
    minBucketWidth: Option<real>, labelStyle: string, labelRoundTo: Option<real>)

  datatype Resource = Resource(
    id: string,
    schema: string,
    table: string,
    metadata: string,
    primaryKey: string,
    tenantKey: Option<string>,
    tenantScope: Option<ScopePath>,
    sharedReference: Option<SharedReference>,
    principalKey: Option<string>,
    principalScope: Option<ScopePath>,
    fieldTypes: map<string, string>,
    fieldEnums: map<string, seq<string>>,
    selectable: seq<string>,
    filterable: map<string, seq<string>>,
    sortable: seq<string>,
    groupable: seq<string>,
    aggregates: seq<string>,
    aggregateFunctions: Option<map<string, seq<string>>>,
    presence: Option<seq<string>>,
    derivedMeasures: Option<seq<DerivedMeasure>>,
    numericBands: Option<seq<NumericBand>>,
    autoBands: Option<seq<AutoBand>>,
    countDistinct: seq<string>,
    timeBuckets: map<string, seq<string>>,
    keptOut: seq<string>,
    modelWithheld: Option<seq<string>>,
    relationships: seq<Relationship>,
    rlsSession: Option<string>,
    minimumCohort: int,
    cohortOverridden: bool,
    suppressionAwareTotals: bool)

  function DirectColumn(r: Resource, kind: ScopeKind): Option<string> {
    match kind
    case Tenant => r.tenantKey
    case Principal => r.principalKey
  }

  predicate DistinctIds(resources: seq<Resource>) {
    forall i, j | 0 <= i < j < |resources| :: resources[i].id != resources[j].id
  }

  function IdsOf(resources: seq<Resource>): set<string> {
    set r | r in resources :: r.id
  }

  /** Lookup by id; ids are unique in every list this is used on. */
  function FindResource(resources: seq<Resource>, id: string): (found: Option<Resource>)
    ensures found.Some? ==> found.value in resources && found.value.id == id
    ensures found.None? ==> id !in IdsOf(resources)
  {
    if resources == [] then None
    else if resources[0].id == id then Some(resources[0])
    else
      assert forall r | r in resources :: r == resources[0] || r in resources[1..];
      FindResource(resources[1..], id)
  }

  function ById(resources: seq<Resource>): (m: map<string, Resource>)
    ensures m.Keys == IdsOf(resources)
    ensures forall id | id in m :: m[id] in resources && m[id].id == id
  {
    if resources == [] then map[]
    else
      var rest := ById(resources[..|resources| - 1]);
      var last := resources[|resources| - 1];
      assert resources == resources[..|resources| - 1] + [last];
      rest[last.id := last]
  }

  lemma {:induction false} ByIdFinds(resources: seq<Resource>, i: nat)
    requires DistinctIds(resources) && i < |resources|
    ensures resources[i].id in ById(resources) && ById(resources)[resources[i].id] == resources[i]
  {
    var n := |resources| - 1;
    if i < n {
      ByIdFinds(resources[..n], i);
    }
  }

  /** A lookup table does not remember the order of the list it was built from. */
  lemma ByIdForgetsOrder(a: seq<Resource>, b: seq<Resource>)
    requires DistinctIds(a) && DistinctIds(b) && (forall r :: r in a <==> r in b)
    ensures ById(a) == ById(b)
  {
    forall id | id in ById(a) ensures id in ById(b) && ById(a)[id] == ById(b)[id] {
      var r := ById(a)[id];
      assert r in b;
      var j :| 0 <= j < |b| && b[j] == r;
      ByIdFinds(b, j);
    }
    forall id | id in ById(b) ensures id in ById(a) {
      var r := ById(b)[id];
      assert r in a;
    }
  }
}
