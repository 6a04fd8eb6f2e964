/**
 The evidence graph that a build reviews: applying the structural decisions, inferring the
 derived scope candidates, and applying the scope decisions. Each step that throws in the
 original reports false here, and its contract says exactly when.
 */
module EvidenceReview {
  import opened Catalog
  import opened Evidence
  import opened Pack
  import opened Sequences
  import opened ScopeSearch
  import opened Narrowing

  datatype Sensitivity = HighConfidence | Unresolved | LowRisk

  datatype Exposure = KeepOut | Withhold | Allow

  datatype Field = Field(
    dataType: string,
    enumValues: seq<string>,
    primaryKey: bool,
    sensitivity: Sensitivity,
    sensitive: bool,
    rawVisible: bool,
    aggregate: bool,
    distinct: bool,
    groupable: bool,
    timeBucket: bool,
    exposure: Option<Exposure>,
    enumReview: Option<seq<string>>,
    groupingReview: Option<string>,
    metadataReview: Option<string>)

  datatype DerivedScope = DerivedScope(candidates: seq<ScopePath>, selected: Option<ScopePath>)

  datatype SharedScope = SharedScope(eligible: bool, selected: bool)

  datatype EvidenceResource = EvidenceResource(
    fields: map<string, Field>,
    primaryKey: Inference,
    tenantKey: Inference,
    principalKey: Inference,
    relationships: seq<EvidenceRelationship>,
    rowSecurityAbsent: bool,
    derivedTenant: Option<DerivedScope>,
    derivedPrincipal: Option<DerivedScope>,
    shared: Option<SharedScope>,
    metadata: Option<string>,
    minimumCohort: Option<int>)

  type Graph = map<string, EvidenceResource>

  /** Verdicts on type and column names that this model takes as given. */
  datatype Naming = Naming(
    unsafe: string -> bool,
    scalarGroup: string -> bool,
    referenceName: string -> bool,
    measure: (string, string) -> bool,
    category: string -> bool,
    timestamp: string -> bool)

  /** The human decisions recorded for one resource; an empty map is an absent entry. */
  datatype Decision = Decision(
    metadata: Option<string>,
    rowIdentity: Option<string>,
    tenantKey: Option<string>,
    tenantPath: Option<string>,
    shared: Option<string>,
    principalKey: Option<Option<string>>,
    principalPath: Option<Option<string>>,
    minimumCohort: Option<int>,
    derivedMeasures: map<string, DerivedMeasure>,
    numericBands: map<string, NumericBand>,
    autoBands: map<string, AutoBand>,
    exactGrouping: map<string, string>,
    fieldMetadata: map<string, string>,
    fieldEnums: map<string, seq<string>>,
    fields: map<string, Exposure>)

  type Overrides = map<string, Decision>

  // ---- Updating the fields of a resource

  function Updated<V>(fields: map<string, Field>, m: map<string, V>,
                      update: (string, Field, V) -> Field): map<string, Field>
  {
    map f | f in fields :: if f in m then update(f, fields[f], m[f]) else fields[f]
  }

  ghost predicate Checked<V>(fields: map<string, Field>, m: map<string, V>, check: (string, Field, V) -> bool) {
    forall f | f in m :: f in fields && check(f, fields[f], m[f])
  }

  /** Applies one kind of decision field by field, stopping at the first that does not fit. */
  method UpdateFields<V(!new)>(fields: map<string, Field>, m: map<string, V>, check: (string, Field, V) -> bool,
                               update: (string, Field, V) -> Field)
    returns (ok: bool, out: map<string, Field>)
    ensures ok <==> Checked(fields, m, check)
    ensures ok ==> out == Updated(fields, m, update)
  {
    out := fields;
    var todo := m.Keys;
    while todo != {}
      invariant todo <= m.Keys && out.Keys == fields.Keys
      invariant forall f | f in m && f !in todo :: f in fields && check(f, fields[f], m[f])
      invariant forall f | f in fields :: out[f] == if f in m && f !in todo then update(f, fields[f], m[f])
        else fields[f]
    {
      var f :| f in todo;
      if f !in fields || !check(f, fields[f], m[f]) {
        return false, out;
      }
      out := out[f := update(f, out[f], m[f])];
      todo := todo - {f};
    }
    ok := true;
  }

  function Allowed(e: Exposure): bool {
    e.Allow? || e.Withhold?
  }

  function ExposureFits(naming: Naming): (string, Field, Exposure) -> bool {
    (name, field: Field, e) => Allowed(e) ==> !naming.unsafe(field.dataType)
  }

  function SetExposure(naming: Naming): (string, Field, Exposure) -> Field {
    (name, field: Field, e) =>
      field.(exposure := Some(e),
             sensitive := !Allowed(e),
             rawVisible := Allowed(e),
             aggregate := Allowed(e) && naming.measure(name, field.dataType),
             distinct := Allowed(e),
             groupable := Allowed(e) && !field.primaryKey && !naming.referenceName(name)
               && naming.category(field.dataType),
             timeBucket := Allowed(e) && naming.timestamp(field.dataType))
  }

  function EnumFits(): (string, Field, seq<string>) -> bool {
    (name, field: Field, values) => if field.enumValues == [] then values == [] else Subset(values, field.enumValues)
  }

  function SetEnum(): (string, Field, seq<string>) -> Field {
    (name, field: Field, values) => field.(enumReview := Some(values))
  }

  function AnyField(): (string, Field, string) -> bool {
    (name, field, text) => true
  }

  function SetMetadata(): (string, Field, string) -> Field {
    (name, field: Field, text) => field.(metadataReview := Some(text))
  }

  function SetGrouping(): (string, Field, string) -> Field {
    (name, field: Field, text) => field.(groupingReview := Some(text), groupable := true)
  }

  predicate ScopeMentions(i: Inference, field: string) {
    i.selected == Some(field) || field in i.candidates
  }

  /** The field may be grouped by its exact values. */
  predicate GroupingEligible(naming: Naming, r: EvidenceResource, name: string, field: Field) {
    && naming.scalarGroup(field.dataType)
    && !field.primaryKey && r.primaryKey.selected != Some(name)
    && (forall k | 0 <= k < |r.relationships| :: name !in r.relationships[k].columns)
    && !naming.referenceName(name)
    && !ScopeMentions(r.tenantKey, name) && !ScopeMentions(r.principalKey, name)
    && !field.sensitivity.HighConfidence?
    && (field.sensitivity.LowRisk? || (field.exposure.Some? && Allowed(field.exposure.value)))
    && field.rawVisible && !field.sensitive && !naming.unsafe(field.dataType)
  }

  function GroupingFits(naming: Naming, r: EvidenceResource): (string, Field, string) -> bool {
    (name, field, text) => GroupingEligible(naming, r, name, field)
  }

  // ---- One decision

  function Choose(i: Inference, value: string): Inference {
    Inference(Some(value), if value in i.candidates then i.candidates else i.candidates + [value])
  }

  function KeysReviewed(r: EvidenceResource, d: Decision): EvidenceResource {
    r.(metadata := if d.metadata.Some? then d.metadata else r.metadata,
       primaryKey := if d.rowIdentity.Some? then r.primaryKey.(selected := d.rowIdentity) else r.primaryKey,
       tenantKey := if d.tenantKey.Some? then Choose(r.tenantKey, d.tenantKey.value) else r.tenantKey,
       principalKey :=
         if d.principalKey.None? then r.principalKey
         else if d.principalKey.value.None? then r.principalKey.(selected := None)
         else Choose(r.principalKey, d.principalKey.value.value),
       minimumCohort := if d.minimumCohort.Some? then d.minimumCohort else r.minimumCohort)
  }

  predicate KeysFit(r: EvidenceResource, d: Decision) {
    && (d.rowIdentity.Some? ==> d.rowIdentity.value in r.primaryKey.candidates)
    && (d.tenantKey.Some? ==> d.tenantKey.value in r.fields)
    && (d.principalKey.Some? && d.principalKey.value.Some? ==> d.principalKey.value.value in r.fields)
  }

  /** Everything but exact grouping. */
  function StructurallyReviewed(naming: Naming, r: EvidenceResource, d: Decision): EvidenceResource {
    KeysReviewed(r, d).(fields :=
      Updated(Updated(Updated(r.fields, d.fieldMetadata, SetMetadata()), d.fieldEnums, SetEnum()), d.fields,
        SetExposure(naming)))
  }

  function ReviewedBy(naming: Naming, r: EvidenceResource, d: Decision): EvidenceResource {
    var s := StructurallyReviewed(naming, r, d);
    s.(fields := Updated(s.fields, d.exactGrouping, SetGrouping()))
  }

  ghost predicate StructurallyFits(naming: Naming, r: EvidenceResource, d: Decision) {
    && KeysFit(r, d)
    && Checked(r.fields, d.fieldMetadata, AnyField())
    && Checked(r.fields, d.fieldEnums, EnumFits())
    && Checked(r.fields, d.fields, ExposureFits(naming))
  }

  ghost predicate Fits(naming: Naming, r: EvidenceResource, d: Decision) {
    var s := StructurallyReviewed(naming, r, d);
    StructurallyFits(naming, r, d) && Checked(s.fields, d.exactGrouping, GroupingFits(naming, s))
  }

  lemma MetadataKeepsChecks<V>(naming: Naming, fields: map<string, Field>, m: map<string, string>,
                               n: map<string, seq<string>>)
    ensures Checked(Updated(fields, m, SetMetadata()), n, EnumFits()) == Checked(fields, n, EnumFits())
  {
    var after := Updated(fields, m, SetMetadata());
    assert after.Keys == fields.Keys;
    assert forall f, v | f in fields :: EnumFits()(f, after[f], v) == EnumFits()(f, fields[f], v);
  }

  lemma EarlierUpdatesKeepChecks(naming: Naming, fields: map<string, Field>, m: map<string, string>,
                                 n: map<string, seq<string>>, e: map<string, Exposure>)
    ensures Checked(Updated(Updated(fields, m, SetMetadata()), n, SetEnum()), e, ExposureFits(naming))
      == Checked(fields, e, ExposureFits(naming))
  {
    var after := Updated(Updated(fields, m, SetMetadata()), n, SetEnum());
    assert after.Keys == fields.Keys;
    forall f | f in fields ensures after[f].dataType == fields[f].dataType {
    }
    assert forall f, v | f in fields :: ExposureFits(naming)(f, after[f], v) == ExposureFits(naming)(f, fields[f], v);
  }

  /** Applies the decision of one resource; false where the original throws. */
  method ApplyDecision(naming: Naming, r: EvidenceResource, d: Decision) returns (ok: bool, out: EvidenceResource)
    ensures ok <==> Fits(naming, r, d)
    ensures ok ==> out == ReviewedBy(naming, r, d)
  {
    out := r;
    MetadataKeepsChecks<string>(naming, r.fields, d.fieldMetadata, d.fieldEnums);
    EarlierUpdatesKeepChecks(naming, r.fields, d.fieldMetadata, d.fieldEnums, d.fields);
    var described, fields := UpdateFields(r.fields, d.fieldMetadata, AnyField(), SetMetadata());
    if !described || !KeysFit(r, d) {
      return false, out;
    }
    var enumerated;
    enumerated, fields := UpdateFields(fields, d.fieldEnums, EnumFits(), SetEnum());
    if !enumerated {
      return false, out;
    }
    var exposed;
    exposed, fields := UpdateFields(fields, d.fields, ExposureFits(naming), SetExposure(naming));
    if !exposed {
      return false, out;
    }
    out := KeysReviewed(r, d).(fields := fields);
    var grouped;
    grouped, fields := UpdateFields(out.fields, d.exactGrouping, GroupingFits(naming, out), SetGrouping());
    out := out.(fields := fields);
    ok := grouped;
  }

  // ---- The graph

  ghost predicate Applicable(naming: Naming, g: Graph, overrides: Overrides) {
    forall id | id in overrides :: id in g && Fits(naming, g[id], overrides[id])
  }

  function Applied(naming: Naming, g: Graph, overrides: Overrides): Graph {
    map id | id in g :: if id in overrides then ReviewedBy(naming, g[id], overrides[id]) else g[id]
  }

  /** The decisions of all resources but those in `pending` fit their resources. */
  ghost predicate FitExcept(naming: Naming, g: Graph, overrides: Overrides, pending: set<string>) {
    forall id | id in overrides && id !in pending :: id in g && Fits(naming, g[id], overrides[id])
  }

  /** The decisions of all resources but those in `pending` have been applied. */
  function AppliedExcept(naming: Naming, g: Graph, overrides: Overrides, pending: set<string>): Graph {
    map id | id in g :: if id in overrides && id !in pending then ReviewedBy(naming, g[id], overrides[id]) else g[id]
  }

  lemma AppliedNext(naming: Naming, g: Graph, overrides: Overrides, pending: set<string>, id: string)
    requires id in pending && id in overrides && id in g
    ensures AppliedExcept(naming, g, overrides, pending)[id] == g[id]
    ensures AppliedExcept(naming, g, overrides, pending - {id})
         == AppliedExcept(naming, g, overrides, pending)[id := ReviewedBy(naming, g[id], overrides[id])]
    ensures FitExcept(naming, g, overrides, pending) && Fits(naming, g[id], overrides[id]) ==>
      FitExcept(naming, g, overrides, pending - {id})
  {
  }

  /** What the scope search reads. */
  function ScopeGraphOf(g: Graph): ScopeGraph {
    map id | id in g :: ScopeNode(g[id].tenantKey, g[id].principalKey, g[id].relationships)
  }

  /** The scope the inference leaves: untouched where a direct column exists or no path does. */
  function ScopeInferred(g: ScopeGraph, kind: ScopeKind, id: string, before: Option<DerivedScope>,
                         collation: Collation): Option<DerivedScope>
    requires id in g
  {
    if Scoped(g, kind, id) || Candidates(g, kind, id, collation) == [] then before
    else Some(DerivedScope(Candidates(g, kind, id, collation), None))
  }

  function ResourceInferred(g: ScopeGraph, id: string, r: EvidenceResource, collation: Collation): EvidenceResource
    requires id in g
  {
    r.(derivedTenant := ScopeInferred(g, Tenant, id, r.derivedTenant, collation),
       derivedPrincipal := ScopeInferred(g, Principal, id, r.derivedPrincipal, collation))
  }

  function Inferred(g: Graph, collation: Collation): Graph {
    map id | id in g :: ResourceInferred(ScopeGraphOf(g), id, g[id], collation)
  }

  predicate ListsPath(d: Option<DerivedScope>, pathId: string) {
    d.Some? && HasId(d.value.candidates, pathId)
  }

  predicate ListsAny(d: Option<DerivedScope>) {
    d.Some? && d.value.candidates != []
  }

  predicate TenantEvidence(i: Inference) {
    i.selected.Some? || i.candidates != []
  }

  /** The target of a relationship is tied to tenants, directly or through a path. */
  predicate TenantBound(r: EvidenceResource) {
    || TenantEvidence(r.tenantKey)
    || (r.derivedTenant.Some? && r.derivedTenant.value.selected.Some?)
    || ListsAny(r.derivedTenant)
  }

  predicate SharedEligible(g: Graph, id: string)
    requires id in g
  {
    && !TenantEvidence(g[id].tenantKey)
    && !ListsAny(g[id].derivedTenant)
    && g[id].rowSecurityAbsent
    && forall k | 0 <= k < |g[id].relationships| ::
         var target := g[id].relationships[k].referenced;
         target in g ==> !TenantBound(g[target])
  }

  function TenantModesReviewed(d: Decision): nat {
    (if d.tenantKey.Some? then 1 else 0)
    + (if d.tenantPath.Some? then 1 else 0)
    + (if d.shared.Some? then 1 else 0)
  }

  /** The scope decisions of one resource do not contradict each other. */
  predicate OneMode(d: Decision) {
    && TenantModesReviewed(d) <= 1
    && !(d.principalKey.Some? && d.principalKey.value.Some? && d.principalPath.Some? && d.principalPath.value.Some?)
  }

  /** The scope decisions of one resource can be taken, given the inferred graph. */
  predicate ScopesFit(g: Graph, id: string, d: Decision, single: bool)
    requires id in g
  {
    && OneMode(d)
    && (d.tenantPath.Some? ==> ListsPath(g[id].derivedTenant, d.tenantPath.value))
    && (d.shared.Some? ==> !single && SharedEligible(g, id))
    && (d.principalPath.Some? && d.principalPath.value.Some? ==>
      ListsPath(g[id].derivedPrincipal, d.principalPath.value.value))
  }

  /** Overrides of resources the graph does not have are passed over. */
  ghost predicate ScopesApplicable(g: Graph, overrides: Overrides, single: bool) {
    forall id | id in overrides && id in g :: ScopesFit(g, id, overrides[id], single)
  }

  function FirstPath(cs: seq<ScopePath>, pathId: string): (c: Option<ScopePath>)
    ensures c.Some? ==> c.value in cs && c.value.pathId == pathId
    ensures c.None? ==> forall i | 0 <= i < |cs| :: cs[i].pathId != pathId
  {
    if cs == [] then None else if cs[0].pathId == pathId then Some(cs[0]) else FirstPath(cs[1..], pathId)
  }

  function Selecting(d: Option<DerivedScope>, pathId: string): Option<DerivedScope> {
    if d.None? then None else Some(d.value.(selected := FirstPath(d.value.candidates, pathId)))
  }

  /** Before any decision is taken, every resource without tenant scope is judged as a shared reference. */
  function SharedInferred(g: Graph, single: bool): Graph {
    map id | id in g ::
      g[id].(shared :=
        if !single && g[id].tenantKey.selected.None?
          && !(g[id].derivedTenant.Some? && g[id].derivedTenant.value.selected.Some?)
        then Some(SharedScope(SharedEligible(g, id), false)) else None)
  }

  function ScopesTaken(r: EvidenceResource, d: Decision): EvidenceResource {
    r.(derivedTenant := if d.tenantPath.Some? then Selecting(r.derivedTenant, d.tenantPath.value) else r.derivedTenant,
       shared := if d.shared.Some? then Some(SharedScope(true, true)) else r.shared,
       derivedPrincipal :=
         if d.principalPath.Some? && d.principalPath.value.Some?
           then Selecting(r.derivedPrincipal, d.principalPath.value.value)
         else r.derivedPrincipal)
  }

  /** The decisions of all resources but those in `pending` have been taken. */
  function TakenExcept(g: Graph, overrides: Overrides, pending: set<string>): Graph {
    map id | id in g :: if id in overrides && id !in pending then ScopesTaken(g[id], overrides[id]) else g[id]
  }

  lemma TakenNext(g: Graph, overrides: Overrides, pending: set<string>, id: string)
    requires id in pending && id in overrides
    ensures TakenExcept(g, overrides, pending - {id}) ==
      if id in g then TakenExcept(g, overrides, pending)[id := ScopesTaken(g[id], overrides[id])]
        else TakenExcept(g, overrides, pending)
  {
  }

  function ScopesApplied(g: Graph, overrides: Overrides, single: bool): Graph {
    TakenExcept(SharedInferred(g, single), overrides, {})
  }

  predicate NothingSelected(g: Graph) {
    forall id | id in g :: g[id].derivedTenant.None? || g[id].derivedTenant.value.selected.None?
  }

  class EvidenceGraph {
    var resources: Graph

    constructor (g: Graph)
      ensures resources == g
    {
      resources := g;
    }

    /** False where the original throws. */
    method ApplyReviewOverrides(naming: Naming, overrides: Overrides) returns (ok: bool)
      modifies this
      ensures ok <==> Applicable(naming, old(resources), overrides)
      ensures ok ==> resources == Applied(naming, old(resources), overrides)
    {
      ghost var given := resources;
      var todo := overrides.Keys;
      while todo != {}
        invariant todo <= overrides.Keys
        invariant FitExcept(naming, given, overrides, todo)
        invariant resources == AppliedExcept(naming, given, overrides, todo)
      {
        var id :| id in todo;
        if id !in resources {
          return false;
        }
        var fits, reviewed := ApplyDecision(naming, resources[id], overrides[id]);
        AppliedNext(naming, given, overrides, todo, id);
        if !fits {
          return false;
        }
        resources := resources[id := reviewed];
        todo := todo - {id};
      }
      return true;
    }

    /** Lists the derived paths of every resource without a direct column. */
    method InferDerivedScopeCandidates(collation: Collation)
      requires TotalOrder(collation)
      modifies this
      ensures resources == Inferred(old(resources), collation)
    {
      ghost var given := resources;
      var todo := resources.Keys;
      while todo != {}
        invariant todo <= given.Keys && resources.Keys == given.Keys
        invariant ScopeGraphOf(resources) == ScopeGraphOf(given)
        invariant forall id | id in given ::
          resources[id] == if id in todo then given[id]
            else ResourceInferred(ScopeGraphOf(given), id, given[id], collation)
      {
        var id :| id in todo;
        var inferred := InferScopes(ScopeGraphOf(resources), id, resources[id], collation);
        InferenceKeepsScopeGraph(resources, id, inferred);
        resources := resources[id := inferred];
        todo := todo - {id};
      }
    }

    /** False where the original throws. */
    method ApplyDerivedScopeReviewOverrides(overrides: Overrides, single: bool) returns (ok: bool)
      requires NothingSelected(resources)
      modifies this
      ensures ok <==> ScopesApplicable(old(resources), overrides, single)
      ensures ok ==> resources == ScopesApplied(old(resources), overrides, single)
    {
      ghost var given := resources;
      resources := SharedInferred(resources, single);
      ghost var judged := resources;
      var todo := overrides.Keys;
      while todo != {}
        invariant todo <= overrides.Keys && resources.Keys == given.Keys
        invariant forall id | id in overrides && id !in todo && id in given ::
          ScopesFit(given, id, overrides[id], single)
        invariant resources == TakenExcept(judged, overrides, todo)
      {
        var id :| id in todo;
        if id in resources {
          var fits := TakeScopes(given, id, overrides[id], single);
          if !fits {
            return false;
          }
        }
        TakenNext(judged, overrides, todo, id);
        todo := todo - {id};
      }
      return true;
    }

    method TakeScopes(ghost given: Graph, id: string, d: Decision, single: bool) returns (ok: bool)
      requires id in given && id in resources && resources.Keys == given.Keys
      requires NothingSelected(given)
      requires resources[id] == SharedInferred(given, single)[id]
      modifies this
      ensures ok <==> ScopesFit(given, id, d, single)
      ensures ok ==> resources == old(resources)[id := ScopesTaken(old(resources[id]), d)]
    {
      var r := resources[id];
      if !OneMode(d) {
        return false;
      }
      if d.tenantPath.Some? {
        if !ListsPath(r.derivedTenant, d.tenantPath.value) {
          return false;
        }
        r := r.(derivedTenant := Selecting(r.derivedTenant, d.tenantPath.value));
      }
      if d.shared.Some? {
        if single {
          return false;
        }
        var eligible := if r.shared.Some? then r.shared.value.eligible else SharedEligible(resources, id);
        if !eligible {
          return false;
        }
        r := r.(shared := Some(SharedScope(true, true)));
      }
      if d.principalPath.Some? && d.principalPath.value.Some? {
        if !ListsPath(r.derivedPrincipal, d.principalPath.value.value) {
          return false;
        }
        r := r.(derivedPrincipal := Selecting(r.derivedPrincipal, d.principalPath.value.value));
      }
      resources := resources[id := r];
      return true;
    }
  }

  lemma InferenceKeepsScopeGraph(g: Graph, id: string, r: EvidenceResource)
    requires id in g && r == g[id].(derivedTenant := r.derivedTenant, derivedPrincipal := r.derivedPrincipal)
    ensures ScopeGraphOf(g[id := r]) == ScopeGraphOf(g)
  {
  }

  method InferScopes(g: ScopeGraph, id: string, r: EvidenceResource, collation: Collation)
    returns (out: EvidenceResource)
    requires id in g && TotalOrder(collation)
    ensures out == ResourceInferred(g, id, r, collation)
  {
    out := r;
    if !Scoped(g, Tenant, id) {
      var candidates := DerivedScopeCandidates(g, Tenant, id, collation);
      if candidates != [] {
        out := out.(derivedTenant := Some(DerivedScope(candidates, None)));
      }
    }
    if !Scoped(g, Principal, id) {
      var candidates := DerivedScopeCandidates(g, Principal, id, collation);
      if candidates != [] {
        out := out.(derivedPrincipal := Some(DerivedScope(candidates, None)));
      }
    }
  }

  // ---- Which paths a resource lists

  function DirectKey(r: EvidenceResource, kind: ScopeKind): Option<string> {
    match kind
    case Tenant => r.tenantKey.selected
    case Principal => r.principalKey.selected
  }

  function DerivedOf(r: EvidenceResource, kind: ScopeKind): Option<DerivedScope> {
    match kind
    case Tenant => r.derivedTenant
    case Principal => r.derivedPrincipal
  }

  /**
   After inference a resource without a direct column lists exactly the ids of its scope paths,
   unless two different paths read alike when joined by colons; one with a direct column lists
   nothing new.
   */
  lemma ListsEveryOffer(g: Graph, kind: ScopeKind, id: string, pathId: string, collation: Collation)
    requires id in g && TotalOrder(collation) && DerivedOf(g[id], kind).None?
    ensures DirectKey(g[id], kind).Some? ==> DerivedOf(Inferred(g, collation)[id], kind).None?
    ensures ListsPath(DerivedOf(Inferred(g, collation)[id], kind), pathId) ==>
      OffersId(ScopeGraphOf(g), kind, id, pathId)
    ensures DirectKey(g[id], kind).None? && TextsTellApart(ScopeGraphOf(g), kind, id) ==>
      (ListsPath(DerivedOf(Inferred(g, collation)[id], kind), pathId) <==>
        OffersId(ScopeGraphOf(g), kind, id, pathId))
  {
    var graph := ScopeGraphOf(g);
    OfferedIdsListed(graph, kind, id, pathId, collation);
    var d := DerivedOf(Inferred(g, collation)[id], kind);
    assert d == ScopeInferred(graph, kind, id, None, collation);
    assert Scoped(graph, kind, id) <==> DirectKey(g[id], kind).Some?;
  }
}
