/**
 Reconciling recorded human decisions with a changed schema. The pruner drops what no longer
 holds; what it leaves is accepted by both apply steps, and pruning again drops nothing.
 */
module Prune {
  import opened Catalog
  import opened Pack
  import opened Sequences
  import opened Narrowing
  import opened EvidenceReview

  /** The new inspection, the evidence graph it builds, and what the previous boundary recorded. */
  datatype Context = Context(
    tables: Inspection,
    built: Graph,
    naming: Naming,
    collation: Collation,
    previousTypes: map<string, map<string, string>>,
    autoBandsSupported: bool)

  const NOTHING := Decision(None, None, None, None, None, None, None, None, map[], map[], map[], map[], map[], map[],
    map[])

  datatype Removal = Removal(resource: string, kind: string, name: string)

  function Removals(resource: string, kind: string, names: set<string>): (r: set<Removal>)
    ensures r == {} <==> names == {}
    ensures forall x | x in r :: x.resource == resource
  {
    var r := set n | n in names :: Removal(resource, kind, n);
    assert forall n | n in names :: Removal(resource, kind, n) in r;
    r
  }

  // ---- What the graph builder records about an inspection

  predicate HasColumn(t: Table, name: string) {
    FindColumn(t.columns, name).Some?
  }

  /** Columns the catalog proves to identify a row on their own. */
  function ProvenIdentifiers(t: Table): set<string> {
    (set c | c in t.primaryKey && |t.primaryKey| == 1)
    + (set k | k in t.uniqueConstraints && |k.columns| == 1 :: k.columns[0])
    + (set x | x in t.indexes && x.unique && |x.columns| == 1 :: x.columns[0])
  }

  ghost predicate ResourceBuilt(t: Table, r: EvidenceResource) {
    && (forall f :: f in r.fields <==> HasColumn(t, f))
    && (forall f | f in r.fields ::
          var c := FindColumn(t.columns, f).value;
          r.fields[f].dataType == c.dataType && r.fields[f].enumValues == c.enumValues)
    && (forall f :: f in r.primaryKey.candidates <==> f in ProvenIdentifiers(t))
    && r.derivedTenant.None? && r.derivedPrincipal.None?
  }

  ghost predicate Built(ctx: Context) {
    && ctx.built.Keys == ctx.tables.Keys
    && TotalOrder(ctx.collation)
    && forall id | id in ctx.tables :: ResourceBuilt(ctx.tables[id], ctx.built[id])
  }

  // ---- Checks against the new inspection alone

  function KeepEntries<V>(m: map<string, V>, keep: (string, V) -> bool): map<string, V> {
    map k | k in m && keep(k, m[k]) :: m[k]
  }

  method FilterEntries<V(!new)>(m: map<string, V>, keep: (string, V) -> bool)
    returns (kept: map<string, V>, dropped: set<string>)
    ensures kept == KeepEntries(m, keep)
    ensures dropped == m.Keys - kept.Keys
  {
    kept, dropped := map[], {};
    var todo := m.Keys;
    while todo != {}
      invariant todo <= m.Keys
      invariant kept == map k | k in m && k !in todo && keep(k, m[k]) :: m[k]
      invariant dropped == set k | k in m && k !in todo && !keep(k, m[k])
    {
      var k :| k in todo;
      if keep(k, m[k]) {
        kept := kept[k := m[k]];
      } else {
        dropped := dropped + {k};
      }
      todo := todo - {k};
    }
  }

  function FindForeignKey(fks: seq<ForeignKey>, name: string, referenced: string): (fk: Option<ForeignKey>)
    ensures fk.Some? ==> fk.value in fks && fk.value.name == name
  {
    if fks == [] then None
    else if fks[0].name == name && QualifiedName(fks[0].referencedSchema, fks[0].referencedTable) == referenced
      then Some(fks[0])
    else FindForeignKey(fks[1..], name, referenced)
  }

  predicate OperandStands(t: Table, m: BaseMeasure) {
    m.field.Some? && m.relationship.None? ==> HasColumn(t, m.field.value)
  }

  predicate MeasureStands(ctx: Context, id: string, d: DerivedMeasure)
    requires id in ctx.tables
  {
    match d
    case ChildCount(_, _, _, child, relationship) =>
      && child in ctx.tables
      && var fk := FindForeignKey(ctx.tables[child].foreignKeys, relationship, id);
         && fk.Some?
         && fk.value.columns != []
         && KeyNotNull(ctx.tables[child], fk.value.columns)
         && TargetUniqueness(ctx.tables[id], fk.value.referencedColumns).Some?
    case PostAggregate(_, _, _, base, _, _) => OperandStands(ctx.tables[id], base)
    case Ratio(_, _, _, numerator, denominator, _) =>
      OperandStands(ctx.tables[id], numerator) && OperandStands(ctx.tables[id], denominator)
  }

  function MeasureCheck(ctx: Context, id: string): (string, DerivedMeasure) -> bool
    requires id in ctx.tables
  {
    (name, d) => MeasureStands(ctx, id, d)
  }

  function BandCheck(t: Table): (string, NumericBand) -> bool {
    (name, d: NumericBand) => d.relationship.Some? || HasColumn(t, d.field)
  }

  function AutoBandCheck(ctx: Context, t: Table): (string, AutoBand) -> bool {
    (name, d) => ctx.autoBandsSupported && HasColumn(t, name)
  }

  /** The field still exists, with the type it had when its grouping was reviewed. */
  function GroupingCheck(ctx: Context, id: string): (string, string) -> bool
    requires id in ctx.tables
  {
    (name, text) =>
      && HasColumn(ctx.tables[id], name)
      && (id in ctx.previousTypes && name in ctx.previousTypes[id] ==>
            ctx.previousTypes[id][name] == FindColumn(ctx.tables[id].columns, name).value.dataType)
  }

  function MetadataCheck(t: Table): (string, string) -> bool {
    (name, text) => HasColumn(t, name)
  }

  function ExposureCheck(ctx: Context, t: Table): (string, Exposure) -> bool {
    (name, e) =>
      && HasColumn(t, name)
      && var c := FindColumn(t.columns, name).value;
         Allowed(e) ==> !c.largeOrBinary && !ctx.naming.unsafe(c.dataType)
  }

  function DeclaredCheck(t: Table, name: string): string -> bool {
    v => HasColumn(t, name) && v in FindColumn(t.columns, name).value.enumValues
  }

  /** Reviewed values that the new schema still declares, for fields that still exist. */
  function RetainEnums(t: Table, m: map<string, seq<string>>): map<string, seq<string>> {
    map f | f in m && HasColumn(t, f) :: Filter(m[f], DeclaredCheck(t, f))
  }

  function RetainKeys(t: Table, d: Decision): Decision {
    d.(rowIdentity := if d.rowIdentity.Some? && d.rowIdentity.value !in ProvenIdentifiers(t) then None
      else d.rowIdentity,
       tenantKey := if d.tenantKey.Some? && !HasColumn(t, d.tenantKey.value) then None else d.tenantKey,
       principalKey :=
         if d.principalKey.Some? && d.principalKey.value.Some? && !HasColumn(t, d.principalKey.value.value) then None
         else d.principalKey)
  }

  function RetainDefinitions(ctx: Context, id: string, d: Decision): Decision
    requires id in ctx.tables
  {
    d.(derivedMeasures := KeepEntries(d.derivedMeasures, MeasureCheck(ctx, id)),
       numericBands := KeepEntries(d.numericBands, BandCheck(ctx.tables[id])),
       autoBands := KeepEntries(d.autoBands, AutoBandCheck(ctx, ctx.tables[id])),
       exactGrouping := KeepEntries(d.exactGrouping, GroupingCheck(ctx, id)))
  }

  function RetainFields(ctx: Context, t: Table, d: Decision): Decision {
    d.(fieldMetadata := KeepEntries(d.fieldMetadata, MetadataCheck(t)),
       fieldEnums := RetainEnums(t, d.fieldEnums),
       fields := KeepEntries(d.fields, ExposureCheck(ctx, t)))
  }

  function Retained(ctx: Context, id: string, d: Decision): Decision
    requires id in ctx.tables
  {
    RetainFields(ctx, ctx.tables[id], RetainDefinitions(ctx, id, RetainKeys(ctx.tables[id], d)))
  }

  function Preliminary(ctx: Context, overrides: Overrides): Overrides {
    map id | id in overrides && id in ctx.tables && Retained(ctx, id, overrides[id]) != NOTHING ::
      Retained(ctx, id, overrides[id])
  }

  // ---- Checks against the graph the retained decisions shape

  function Structural(overrides: Overrides): Overrides {
    map id | id in overrides :: overrides[id].(exactGrouping := map[])
  }

  /** The graph with all structural decisions applied and its scope paths listed. */
  function Surveyed(ctx: Context, overrides: Overrides): Graph {
    Inferred(Applied(ctx.naming, ctx.built, Structural(overrides)), ctx.collation)
  }

  function EligibleCheck(ctx: Context, r: EvidenceResource): (string, string) -> bool {
    (name, text) => name in r.fields && GroupingEligible(ctx.naming, r, name, r.fields[name])
  }

  function Reconciled(ctx: Context, g: Graph, id: string, d: Decision): Decision
    requires id in g
  {
    d.(tenantPath := if d.tenantPath.Some? && !ListsPath(g[id].derivedTenant, d.tenantPath.value) then None
      else d.tenantPath,
       principalPath :=
         if d.principalPath.Some? && d.principalPath.value.Some?
           && !ListsPath(g[id].derivedPrincipal, d.principalPath.value.value)
         then None else d.principalPath,
       shared := if d.shared.Some? && !SharedEligible(g, id) then None else d.shared,
       exactGrouping := KeepEntries(d.exactGrouping, EligibleCheck(ctx, g[id])))
  }

  predicate NeedsSurvey(d: Decision) {
    d.tenantPath.Some? || d.principalPath.Some? || d.shared.Some? || d.exactGrouping != map[]
  }

  /** What is left of one recorded decision. */
  function Left(ctx: Context, overrides: Overrides, id: string): Decision
    requires ctx.built.Keys == ctx.tables.Keys && id in overrides && id in ctx.tables
  {
    Reconciled(ctx, Surveyed(ctx, Preliminary(ctx, overrides)), id, Retained(ctx, id, overrides[id]))
  }

  function Pruned(ctx: Context, overrides: Overrides): Overrides
    requires ctx.built.Keys == ctx.tables.Keys
  {
    map id | id in overrides && id in ctx.tables && Left(ctx, overrides, id) != NOTHING :: Left(ctx, overrides, id)
  }

  // ---- Retained decisions fit the built graph

  /** Reviewed value lists hold no value twice, which parsing the overrides ensures. */
  ghost predicate EnumsDistinct(d: Decision) {
    forall f | f in d.fieldEnums :: NoDuplicates(d.fieldEnums[f])
  }

  lemma RetainedEnumsFit(t: Table, r: EvidenceResource, m: map<string, seq<string>>)
    requires ResourceBuilt(t, r) && forall f | f in m :: NoDuplicates(m[f])
    ensures Checked(r.fields, RetainEnums(t, m), EnumFits())
  {
    forall f | f in RetainEnums(t, m) ensures f in r.fields && EnumFits()(f, r.fields[f], RetainEnums(t, m)[f]) {
      var keep := DeclaredCheck(t, f);
      FilterMembers(m[f], keep);
      FilterDuplicateFree(m[f], keep);
      if r.fields[f].enumValues == [] {
        FilterNone(m[f], keep);
      }
      forall i | 0 <= i < |Filter(m[f], keep)| ensures Filter(m[f], keep)[i] in r.fields[f].enumValues {
        assert Filter(m[f], keep)[i] in Filter(m[f], keep);
      }
    }
  }

  lemma RetainedFits(ctx: Context, id: string, d: Decision)
    requires Built(ctx) && id in ctx.tables && EnumsDistinct(d)
    ensures StructurallyFits(ctx.naming, ctx.built[id], Retained(ctx, id, d))
  {
    var t, r, kept := ctx.tables[id], ctx.built[id], Retained(ctx, id, d);
    assert ResourceBuilt(t, r);
    RetainedEnumsFit(t, r, d.fieldEnums);
    assert kept.fieldEnums == RetainEnums(t, d.fieldEnums);
    assert KeysFit(r, kept);
    assert Checked(r.fields, kept.fieldMetadata, AnyField());
    assert Checked(r.fields, kept.fields, ExposureFits(ctx.naming));
  }

  // ---- The two graphs agree on what scope decisions read

  /** Resource id as its structural decisions leave it. */
  function StructuralView(ctx: Context, overrides: Overrides, id: string): EvidenceResource
    requires id in ctx.built
  {
    if id in overrides then StructurallyReviewed(ctx.naming, ctx.built[id], overrides[id]) else ctx.built[id]
  }

  lemma NothingIsNoReview(naming: Naming, r: EvidenceResource)
    ensures StructurallyReviewed(naming, r, NOTHING) == r
  {
  }

  lemma StructuralApplied(ctx: Context, overrides: Overrides, id: string)
    requires id in ctx.built
    ensures Applied(ctx.naming, ctx.built, Structural(overrides))[id] == StructuralView(ctx, overrides, id)
  {
    if id in overrides {
      var d := overrides[id].(exactGrouping := map[]);
      assert ReviewedBy(ctx.naming, ctx.built[id], d) == StructurallyReviewed(ctx.naming, ctx.built[id], d);
    }
  }

  ghost predicate SameViews(ctx: Context, a: Overrides, b: Overrides) {
    forall id | id in ctx.built :: StructuralView(ctx, a, id) == StructuralView(ctx, b, id)
  }

  lemma SameViewsSameSurvey(ctx: Context, a: Overrides, b: Overrides)
    requires SameViews(ctx, a, b)
    ensures Surveyed(ctx, a) == Surveyed(ctx, b)
  {
    forall id | id in ctx.built
      ensures Applied(ctx.naming, ctx.built, Structural(a))[id] == Applied(ctx.naming, ctx.built, Structural(b))[id]
    {
      StructuralApplied(ctx, a, id);
      StructuralApplied(ctx, b, id);
    }
    assert Applied(ctx.naming, ctx.built, Structural(a)) == Applied(ctx.naming, ctx.built, Structural(b));
  }

  lemma ReconciledView(ctx: Context, g: Graph, id: string, d: Decision)
    requires id in g && id in ctx.built
    ensures StructurallyReviewed(ctx.naming, ctx.built[id], Reconciled(ctx, g, id, d))
      == StructurallyReviewed(ctx.naming, ctx.built[id], d)
  {
  }

  lemma LeftView(ctx: Context, overrides: Overrides, id: string)
    requires Built(ctx) && id in overrides && id in ctx.tables
    ensures StructurallyReviewed(ctx.naming, ctx.built[id], Left(ctx, overrides, id))
         == StructurallyReviewed(ctx.naming, ctx.built[id], Retained(ctx, id, overrides[id]))
  {
    ReconciledView(ctx, Surveyed(ctx, Preliminary(ctx, overrides)), id, Retained(ctx, id, overrides[id]));
  }

  lemma PrunedView(ctx: Context, overrides: Overrides, id: string)
    requires Built(ctx) && id in ctx.built
    ensures StructuralView(ctx, Pruned(ctx, overrides), id) == StructuralView(ctx, Preliminary(ctx, overrides), id)
  {
    NothingIsNoReview(ctx.naming, ctx.built[id]);
    if id in overrides {
      LeftView(ctx, overrides, id);
    }
  }

  /** Dropping scope paths, groupings and emptied decisions does not move the survey. */
  lemma PruningKeepsSurvey(ctx: Context, overrides: Overrides)
    requires Built(ctx)
    ensures Surveyed(ctx, Pruned(ctx, overrides)) == Surveyed(ctx, Preliminary(ctx, overrides))
  {
    forall id | id in ctx.built
      ensures StructuralView(ctx, Pruned(ctx, overrides), id) == StructuralView(ctx, Preliminary(ctx, overrides), id)
    {
      PrunedView(ctx, overrides, id);
    }
    SameViewsSameSurvey(ctx, Pruned(ctx, overrides), Preliminary(ctx, overrides));
  }

  /** Equal apart from the groupings recorded on fields. */
  ghost predicate SameButGroupings(a: EvidenceResource, b: EvidenceResource) {
    a == b.(fields := a.fields)
  }

  lemma GroupingsDoNotMoveScopes(a: Graph, b: Graph, collation: Collation)
    requires a.Keys == b.Keys && forall id | id in a :: SameButGroupings(a[id], b[id])
    ensures Inferred(a, collation).Keys == Inferred(b, collation).Keys
    ensures forall id | id in a :: SameButGroupings(Inferred(a, collation)[id], Inferred(b, collation)[id])
    ensures forall id | id in a ::
      SharedEligible(Inferred(a, collation), id) == SharedEligible(Inferred(b, collation), id)
  {
    assert ScopeGraphOf(a) == ScopeGraphOf(b);
    var p, q := Inferred(a, collation), Inferred(b, collation);
    forall id | id in a ensures SameButGroupings(p[id], q[id]) {
      assert SameButGroupings(a[id], b[id]);
    }
    forall id | id in a ensures SharedEligible(p, id) == SharedEligible(q, id) {
      SameEligibility(p, q, id);
    }
  }

  lemma SameEligibility(p: Graph, q: Graph, id: string)
    requires p.Keys == q.Keys && id in p && forall i | i in p :: SameButGroupings(p[i], q[i])
    ensures SharedEligible(p, id) == SharedEligible(q, id)
  {
    assert SameButGroupings(p[id], q[id]);
    forall k | 0 <= k < |p[id].relationships| && p[id].relationships[k].referenced in p
      ensures TenantBound(p[p[id].relationships[k].referenced]) == TenantBound(q[p[id].relationships[k].referenced])
    {
      assert SameButGroupings(p[p[id].relationships[k].referenced], q[p[id].relationships[k].referenced]);
    }
  }

  // ---- What the pruner leaves, both apply steps accept

  ghost predicate Reviewable(ctx: Context, overrides: Overrides) {
    Built(ctx) && forall id | id in overrides :: EnumsDistinct(overrides[id])
  }

  lemma ReconciledFits(ctx: Context, g: Graph, id: string, d: Decision)
    requires id in g && id in ctx.built && StructurallyFits(ctx.naming, ctx.built[id], d)
    requires
      var s := StructurallyReviewed(ctx.naming, ctx.built[id], d);
      g[id] == s.(derivedTenant := g[id].derivedTenant, derivedPrincipal := g[id].derivedPrincipal)
    ensures Fits(ctx.naming, ctx.built[id], Reconciled(ctx, g, id, d))
  {
    var left := Reconciled(ctx, g, id, d);
    var s := StructurallyReviewed(ctx.naming, ctx.built[id], d);
    ReconciledView(ctx, g, id, d);
    forall f | f in left.exactGrouping
      ensures f in s.fields && GroupingFits(ctx.naming, s)(f, s.fields[f], left.exactGrouping[f])
    {
      assert EligibleCheck(ctx, g[id])(f, left.exactGrouping[f]);
    }
  }

  lemma SurveyedResource(ctx: Context, overrides: Overrides, id: string)
    requires id in ctx.built
    ensures id in Surveyed(ctx, overrides)
    ensures
      var g := Surveyed(ctx, overrides);
      g[id] == StructuralView(ctx, overrides, id).(derivedTenant := g[id].derivedTenant,
        derivedPrincipal := g[id].derivedPrincipal)
  {
    StructuralApplied(ctx, overrides, id);
  }

  /** The structural step accepts what the pruner surveys, and what it finally leaves. */
  lemma PrunedIsApplicable(ctx: Context, overrides: Overrides)
    requires Reviewable(ctx, overrides)
    ensures Applicable(ctx.naming, ctx.built, Structural(Preliminary(ctx, overrides)))
    ensures Applicable(ctx.naming, ctx.built, Pruned(ctx, overrides))
  {
    var q := Preliminary(ctx, overrides);
    forall id | id in Structural(q) ensures id in ctx.built && Fits(ctx.naming, ctx.built[id], Structural(q)[id]) {
      RetainedFits(ctx, id, overrides[id]);
      SameStructure(ctx, ctx.built[id], q[id]);
    }
    forall id | id in Pruned(ctx, overrides)
      ensures id in ctx.built && Fits(ctx.naming, ctx.built[id], Pruned(ctx, overrides)[id])
    {
      LeftFits(ctx, overrides, id);
    }
  }

  lemma SameStructure(ctx: Context, r: EvidenceResource, d: Decision)
    requires StructurallyFits(ctx.naming, r, d)
    ensures Fits(ctx.naming, r, d.(exactGrouping := map[]))
  {
  }

  lemma LeftFits(ctx: Context, overrides: Overrides, id: string)
    requires Reviewable(ctx, overrides) && id in overrides && id in ctx.tables
    ensures Fits(ctx.naming, ctx.built[id], Left(ctx, overrides, id))
  {
    var q := Preliminary(ctx, overrides);
    RetainedFits(ctx, id, overrides[id]);
    SurveyedResource(ctx, q, id);
    NothingIsNoReview(ctx.naming, ctx.built[id]);
    ReconciledFits(ctx, Surveyed(ctx, q), id, Retained(ctx, id, overrides[id]));
  }

  lemma AppliedSameButGroupings(ctx: Context, overrides: Overrides, id: string)
    requires id in ctx.built
    ensures SameButGroupings(Applied(ctx.naming, ctx.built, overrides)[id],
      Applied(ctx.naming, ctx.built, Structural(overrides))[id])
  {
    StructuralApplied(ctx, overrides, id);
  }

  lemma ReconciledScopesFit(ctx: Context, g: Graph, id: string, d: Decision)
    requires id in g
    ensures ScopesFit(g, id, Reconciled(ctx, g, id, d), false) <==> OneMode(Reconciled(ctx, g, id, d))
    ensures OneMode(d) ==> OneMode(Reconciled(ctx, g, id, d))
  {
  }

  lemma RetainedOneMode(ctx: Context, id: string, d: Decision)
    requires id in ctx.tables && OneMode(d)
    ensures OneMode(Retained(ctx, id, d))
  {
  }

  lemma LeftScopesFit(ctx: Context, overrides: Overrides, id: string)
    requires Built(ctx) && id in overrides && id in ctx.tables
    ensures ScopesFit(Surveyed(ctx, Preliminary(ctx, overrides)), id, Left(ctx, overrides, id), false) <==>
      OneMode(Left(ctx, overrides, id))
    ensures OneMode(overrides[id]) ==> OneMode(Left(ctx, overrides, id))
  {
    ReconciledScopesFit(ctx, Surveyed(ctx, Preliminary(ctx, overrides)), id, Retained(ctx, id, overrides[id]));
    if OneMode(overrides[id]) {
      RetainedOneMode(ctx, id, overrides[id]);
    }
  }

  lemma ScopesFitSame(p: Graph, q: Graph, id: string, d: Decision, single: bool)
    requires id in p && id in q && SameButGroupings(p[id], q[id]) && SharedEligible(p, id) == SharedEligible(q, id)
    ensures ScopesFit(p, id, d, single) == ScopesFit(q, id, d, single)
  {
  }

  /**
   Main result: a build from the pruned overrides passes the structural step, and the scope
   step exactly when what is left names one tenant mode and one principal mode at most.
   */
  lemma PrunedOverridesNeverThrow(ctx: Context, overrides: Overrides)
    requires Reviewable(ctx, overrides)
    ensures Applicable(ctx.naming, ctx.built, Pruned(ctx, overrides))
    ensures ScopesApplicable(Inferred(Applied(ctx.naming, ctx.built, Pruned(ctx, overrides)), ctx.collation),
      Pruned(ctx, overrides), false)
       <==> forall id | id in Pruned(ctx, overrides) :: OneMode(Pruned(ctx, overrides)[id])
    ensures forall id | id in Pruned(ctx, overrides) :: OneMode(overrides[id]) ==> OneMode(Pruned(ctx, overrides)[id])
  {
    var p := Pruned(ctx, overrides);
    PrunedIsApplicable(ctx, overrides);
    PruningKeepsSurvey(ctx, overrides);
    var a, b := Applied(ctx.naming, ctx.built, p), Applied(ctx.naming, ctx.built, Structural(p));
    forall id | id in a ensures SameButGroupings(a[id], b[id]) {
      AppliedSameButGroupings(ctx, p, id);
    }
    GroupingsDoNotMoveScopes(a, b, ctx.collation);
    forall id | id in p
      ensures id in a && (ScopesFit(Inferred(a, ctx.collation), id, p[id], false) <==> OneMode(p[id]))
      ensures OneMode(overrides[id]) ==> OneMode(p[id])
    {
      LeftScopesFit(ctx, overrides, id);
      ScopesFitSame(Inferred(a, ctx.collation), Inferred(b, ctx.collation), id, p[id], false);
    }
  }

  lemma InferenceSelectsNothing(ctx: Context, overrides: Overrides)
    requires Built(ctx)
    ensures NothingSelected(Inferred(Applied(ctx.naming, ctx.built, overrides), ctx.collation))
  {
    forall id | id in ctx.built ensures Applied(ctx.naming, ctx.built, overrides)[id].derivedTenant.None? {
      assert ResourceBuilt(ctx.tables[id], ctx.built[id]);
    }
  }

  /** The part of a build that takes the decisions; false where it throws. */
  method TakeDecisions(ctx: Context, overrides: Overrides, single: bool) returns (ok: bool, reviewed: Graph)
    requires Built(ctx)
    ensures ok <==>
      && Applicable(ctx.naming, ctx.built, overrides)
      && ScopesApplicable(Inferred(Applied(ctx.naming, ctx.built, overrides), ctx.collation), overrides, single)
    ensures ok ==>
      reviewed == ScopesApplied(Inferred(Applied(ctx.naming, ctx.built, overrides), ctx.collation), overrides, single)
  {
    var graph := new EvidenceGraph(ctx.built);
    ok := graph.ApplyReviewOverrides(ctx.naming, overrides);
    if ok {
      graph.InferDerivedScopeCandidates(ctx.collation);
      InferenceSelectsNothing(ctx, overrides);
      ok := graph.ApplyDerivedScopeReviewOverrides(overrides, single);
    }
    reviewed := graph.resources;
  }

  // ---- Pruning twice

  lemma KeepEntriesAgain<V>(m: map<string, V>, keep: (string, V) -> bool)
    ensures KeepEntries(KeepEntries(m, keep), keep) == KeepEntries(m, keep)
  {
  }

  lemma RetainEnumsAgain(t: Table, m: map<string, seq<string>>)
    ensures RetainEnums(t, RetainEnums(t, m)) == RetainEnums(t, m)
  {
    var once := RetainEnums(t, m);
    forall f | f in once ensures Filter(once[f], DeclaredCheck(t, f)) == once[f] {
      FilterMembers(m[f], DeclaredCheck(t, f));
      assert forall i | 0 <= i < |once[f]| :: once[f][i] in once[f];
      FilterAll(once[f], DeclaredCheck(t, f));
    }
  }

  lemma RetainedAgain(ctx: Context, g: Graph, id: string, d: Decision)
    requires id in ctx.tables && id in g
    ensures
      var left := Reconciled(ctx, g, id, Retained(ctx, id, d));
      Retained(ctx, id, left) == left
  {
    var once := Retained(ctx, id, d);
    var left := Reconciled(ctx, g, id, once);
    RetainEnumsAgain(ctx.tables[id], d.fieldEnums);
    KeepEntriesAgain(d.derivedMeasures, MeasureCheck(ctx, id));
    KeepEntriesAgain(d.numericBands, BandCheck(ctx.tables[id]));
    KeepEntriesAgain(d.autoBands, AutoBandCheck(ctx, ctx.tables[id]));
    KeepEntriesAgain(d.fieldMetadata, MetadataCheck(ctx.tables[id]));
    KeepEntriesAgain(d.fields, ExposureCheck(ctx, ctx.tables[id]));
    assert KeepEntries(left.exactGrouping, GroupingCheck(ctx, id)) == left.exactGrouping;
  }

  lemma ReconciledAgain(ctx: Context, g: Graph, id: string, d: Decision)
    requires id in g
    ensures Reconciled(ctx, g, id, Reconciled(ctx, g, id, d)) == Reconciled(ctx, g, id, d)
  {
    KeepEntriesAgain(d.exactGrouping, EligibleCheck(ctx, g[id]));
  }

  lemma LeftIsRetained(ctx: Context, overrides: Overrides, id: string)
    requires Built(ctx) && id in overrides && id in ctx.tables
    ensures Retained(ctx, id, Left(ctx, overrides, id)) == Left(ctx, overrides, id)
  {
    RetainedAgain(ctx, Surveyed(ctx, Preliminary(ctx, overrides)), id, overrides[id]);
  }

  lemma PrunedIsItsOwnPreliminary(ctx: Context, overrides: Overrides)
    requires Built(ctx)
    ensures Preliminary(ctx, Pruned(ctx, overrides)) == Pruned(ctx, overrides)
  {
    var p := Pruned(ctx, overrides);
    forall id | id in p ensures Retained(ctx, id, p[id]) == p[id] && p[id] != NOTHING {
      LeftIsRetained(ctx, overrides, id);
    }
    OwnPreliminary(ctx, p);
  }

  lemma OwnPreliminary(ctx: Context, p: Overrides)
    requires forall id | id in p :: id in ctx.tables && Retained(ctx, id, p[id]) == p[id] && p[id] != NOTHING
    ensures Preliminary(ctx, p) == p
  {
  }

  lemma LeftAgain(ctx: Context, overrides: Overrides, id: string)
    requires Built(ctx) && id in Pruned(ctx, overrides)
    ensures id in ctx.tables && Left(ctx, Pruned(ctx, overrides), id) == Left(ctx, overrides, id)
  {
    var g, left := Surveyed(ctx, Preliminary(ctx, overrides)), Left(ctx, overrides, id);
    PrunedIsItsOwnPreliminary(ctx, overrides);
    PruningKeepsSurvey(ctx, overrides);
    LeftIsRetained(ctx, overrides, id);
    ReconciledAgain(ctx, g, id, Retained(ctx, id, overrides[id]));
    assert Left(ctx, Pruned(ctx, overrides), id) == Reconciled(ctx, g, id, Retained(ctx, id, left));
  }

  /** Pruning again keeps every decision whole. */
  lemma PrunedTwice(ctx: Context, overrides: Overrides)
    requires Built(ctx)
    ensures Pruned(ctx, Pruned(ctx, overrides)) == Pruned(ctx, overrides)
    ensures NothingLost(ctx, Pruned(ctx, overrides))
  {
    var p := Pruned(ctx, overrides);
    forall id | id in p ensures id in ctx.tables && Left(ctx, p, id) == p[id] && p[id] != NOTHING {
      LeftAgain(ctx, overrides, id);
    }
    OwnPruned(ctx, p);
  }

  lemma SameMaps<V>(a: map<string, V>, b: map<string, V>)
    requires forall k :: (k in a <==> k in b) && (k in a && k in b ==> a[k] == b[k])
    ensures a == b
  {
  }

  lemma OwnPruned(ctx: Context, p: Overrides)
    requires ctx.built.Keys == ctx.tables.Keys
    requires forall id | id in p :: id in ctx.tables && Left(ctx, p, id) == p[id] && p[id] != NOTHING
    ensures Pruned(ctx, p) == p
  {
    var q := Pruned(ctx, p);
    forall id ensures (id in q <==> id in p) && (id in q && id in p ==> q[id] == p[id]) {
    }
    SameMaps(q, p);
  }

  /** Every recorded decision survives whole. */
  ghost predicate NothingLost(ctx: Context, overrides: Overrides)
    requires ctx.built.Keys == ctx.tables.Keys
  {
    forall id | id in overrides :: id in ctx.tables && Left(ctx, overrides, id) == overrides[id]
  }

  /** The decision recorded for a resource; an absent one decides nothing. */
  function Of(overrides: Overrides, id: string): Decision {
    if id in overrides then overrides[id] else NOTHING
  }

  lemma OfPruned(ctx: Context, overrides: Overrides, id: string)
    requires Built(ctx)
    ensures Of(Pruned(ctx, overrides), id) ==
      if id in overrides && id in ctx.tables then Left(ctx, overrides, id) else NOTHING
  {
  }

  // ---- What was lost

  /** The text inside a decision that may also decide for nothing. */
  function Chosen(o: Option<Option<string>>): Option<string> {
    if o.Some? then o.value else None
  }

  function Gone(id: string, kind: string, was: Option<string>, now: Option<string>): (r: set<Removal>)
    ensures forall x | x in r :: x.resource == id
  {
    if was.Some? && now.None? then {Removal(id, kind, was.value)} else {}
  }

  function LostKeys(id: string, was: Decision, now: Decision): set<Removal> {
    Gone(id, "row identity", was.rowIdentity, now.rowIdentity)
    + Gone(id, "tenant key", was.tenantKey, now.tenantKey)
    + Gone(id, "principal key", Chosen(was.principalKey), Chosen(now.principalKey))
  }

  function LostScopes(id: string, was: Decision, now: Decision): set<Removal> {
    Gone(id, "derived tenant path", was.tenantPath, now.tenantPath)
    + Gone(id, "derived principal path", Chosen(was.principalPath), Chosen(now.principalPath))
    + Gone(id, "shared reference", was.shared, now.shared)
  }

  function LostDefinitions(id: string, was: Decision, now: Decision): set<Removal> {
    Removals(id, "derived measure", was.derivedMeasures.Keys - now.derivedMeasures.Keys)
    + Removals(id, "numeric band", was.numericBands.Keys - now.numericBands.Keys)
    + Removals(id, "auto-band", was.autoBands.Keys - now.autoBands.Keys)
  }

  function LostGroupings(id: string, was: Decision, now: Decision): set<Removal> {
    Removals(id, "exact grouping", was.exactGrouping.Keys - now.exactGrouping.Keys)
  }

  /** Vocabularies that are gone or no longer whole. */
  function Shortened(was: map<string, seq<string>>, now: map<string, seq<string>>): set<string> {
    set f | f in was && (f !in now || now[f] != was[f])
  }

  function LostFields(id: string, was: Decision, now: Decision): set<Removal> {
    Removals(id, "metadata", was.fieldMetadata.Keys - now.fieldMetadata.Keys)
    + Removals(id, "enum", Shortened(was.fieldEnums, now.fieldEnums))
    + Removals(id, "field", was.fields.Keys - now.fields.Keys)
  }

  /** Everything a decision for resource id lost on the way from `was` to `now`. */
  function Lost(id: string, was: Decision, now: Decision): set<Removal> {
    LostKeys(id, was, now) + LostScopes(id, was, now) + LostDefinitions(id, was, now) + LostGroupings(id, was, now)
    + LostFields(id, was, now)
  }

  lemma LostNamesResource(id: string, was: Decision, now: Decision)
    ensures forall r | r in Lost(id, was, now) :: r.resource == id
  {
  }

  predicate SameKeys(a: Decision, b: Decision) {
    a.rowIdentity == b.rowIdentity && a.tenantKey == b.tenantKey && a.principalKey == b.principalKey
  }

  predicate SameScopes(a: Decision, b: Decision) {
    a.tenantPath == b.tenantPath && a.principalPath == b.principalPath && a.shared == b.shared
  }

  predicate SameDefinitions(a: Decision, b: Decision) {
    && a.derivedMeasures == b.derivedMeasures && a.numericBands == b.numericBands && a.autoBands == b.autoBands
    && a.exactGrouping == b.exactGrouping
  }

  predicate SameFields(a: Decision, b: Decision) {
    a.fieldMetadata == b.fieldMetadata && a.fieldEnums == b.fieldEnums && a.fields == b.fields
  }

  /** The three steps of the schema check each lose one part. */
  lemma StagesLose(id: string, d: Decision, keys: Decision, definitions: Decision, fields: Decision)
    requires SameScopes(d, fields) && SameKeys(keys, fields)
    requires SameDefinitions(d, keys) && SameDefinitions(definitions, fields)
    requires SameFields(d, definitions)
    ensures Lost(id, d, fields) ==
      LostKeys(id, d, keys) + LostDefinitions(id, keys, definitions) + LostGroupings(id, keys, definitions)
      + LostFields(id, definitions, fields)
  {
    assert LostScopes(id, d, fields) == {};
    assert LostKeys(id, d, fields) == LostKeys(id, d, keys);
    assert LostDefinitions(id, d, fields) == LostDefinitions(id, keys, definitions);
    assert LostGroupings(id, d, fields) == LostGroupings(id, keys, definitions);
    assert LostFields(id, d, fields) == LostFields(id, definitions, fields);
    EmptyPart(LostKeys(id, d, keys), LostDefinitions(id, keys, definitions), LostGroupings(id, keys, definitions),
              LostFields(id, definitions, fields));
  }

  lemma EmptyPart(k: set<Removal>, d: set<Removal>, g: set<Removal>, f: set<Removal>)
    ensures k + {} + d + g + f == k + (d + g) + f == k + d + g + f
  {
  }

  lemma StagesApart(ctx: Context, id: string, d: Decision)
    requires id in ctx.tables
    ensures
      var keys := RetainKeys(ctx.tables[id], d);
      var definitions := RetainDefinitions(ctx, id, keys);
      var fields := RetainFields(ctx, ctx.tables[id], definitions);
      && SameScopes(d, fields) && SameKeys(keys, fields)
      && SameDefinitions(d, keys) && SameDefinitions(definitions, fields)
      && SameFields(d, definitions)
  {
  }

  lemma SchemaCheckLoses(ctx: Context, id: string, d: Decision)
    requires id in ctx.tables
    ensures
      var keys := RetainKeys(ctx.tables[id], d);
      var definitions := RetainDefinitions(ctx, id, keys);
      Lost(id, d, Retained(ctx, id, d)) ==
        LostKeys(id, d, keys) + (LostDefinitions(id, keys, definitions) + LostGroupings(id, keys, definitions))
        + LostFields(id, definitions, RetainFields(ctx, ctx.tables[id], definitions))
  {
    var keys := RetainKeys(ctx.tables[id], d);
    var definitions := RetainDefinitions(ctx, id, keys);
    var fields := RetainFields(ctx, ctx.tables[id], definitions);
    StagesApart(ctx, id, d);
    StagesLose(id, d, keys, definitions, fields);
    EmptyPart(LostKeys(id, d, keys), LostDefinitions(id, keys, definitions), LostGroupings(id, keys, definitions),
              LostFields(id, definitions, fields));
  }

  /** Only scope decisions and groupings differ. */
  predicate OnlyScopesDiffer(was: Decision, now: Decision) {
    now == was.(tenantPath := now.tenantPath, principalPath := now.principalPath, shared := now.shared,
                exactGrouping := now.exactGrouping)
  }

  lemma ScopesLose(id: string, was: Decision, now: Decision)
    requires OnlyScopesDiffer(was, now)
    ensures Lost(id, was, now) == LostScopes(id, was, now) + LostGroupings(id, was, now)
  {
    assert LostKeys(id, was, now) == {};
    assert LostDefinitions(id, was, now) == {};
    assert LostFields(id, was, now) == {};
  }

  /** What two steps lose: the first leaves the scope decisions, the second everything but them and groupings. */
  lemma LostInSteps(id: string, d: Decision, once: Decision, left: Decision)
    requires once.tenantPath == d.tenantPath && once.principalPath == d.principalPath && once.shared == d.shared
    requires OnlyScopesDiffer(once, left)
    requires left.exactGrouping.Keys <= once.exactGrouping.Keys <= d.exactGrouping.Keys
    ensures Lost(id, d, left) == Lost(id, d, once) + Lost(id, once, left)
  {
    ScopesLose(id, once, left);
    assert LostScopes(id, d, once) == {};
    assert LostScopes(id, d, left) == LostScopes(id, once, left);
    assert LostKeys(id, d, left) == LostKeys(id, d, once);
    assert LostDefinitions(id, d, left) == LostDefinitions(id, d, once);
    assert LostFields(id, d, left) == LostFields(id, d, once);
    LostGroupingsInTwo(id, d, once, left);
    SevenParts(LostKeys(id, d, once), LostScopes(id, once, left), LostDefinitions(id, d, once),
               LostGroupings(id, d, once), LostGroupings(id, once, left), LostFields(id, d, once));
  }

  lemma SevenParts(k: set<Removal>, s: set<Removal>, d: set<Removal>, g: set<Removal>, h: set<Removal>, f: set<Removal>)
    ensures k + s + d + (g + h) + f == (k + {} + d + g + f) + (s + h)
  {
  }

  lemma LostGroupingsInTwo(id: string, d: Decision, once: Decision, left: Decision)
    requires left.exactGrouping.Keys <= once.exactGrouping.Keys <= d.exactGrouping.Keys
    ensures LostGroupings(id, d, left) == LostGroupings(id, d, once) + LostGroupings(id, once, left)
  {
  }

  lemma RetainedKeepsScopes(ctx: Context, id: string, d: Decision)
    requires id in ctx.tables
    ensures
      var once := Retained(ctx, id, d);
      && once.exactGrouping.Keys <= d.exactGrouping.Keys
      && once.tenantPath == d.tenantPath && once.principalPath == d.principalPath && once.shared == d.shared
  {
  }

  /** The schema check and the survey check together lose what is missing in the end. */
  lemma LostInTwo(ctx: Context, g: Graph, id: string, d: Decision)
    requires id in ctx.tables && id in g
    ensures
      var once := Retained(ctx, id, d);
      Lost(id, d, Reconciled(ctx, g, id, once)) == Lost(id, d, once) + Lost(id, once, Reconciled(ctx, g, id, once))
  {
    var once := Retained(ctx, id, d);
    RetainedKeepsScopes(ctx, id, d);
    LostInSteps(id, d, once, Reconciled(ctx, g, id, once));
  }

  // ---- The pruner

  function WithKeys(d: Decision, rowIdentity: Option<string>, tenantKey: Option<string>,
                    principalKey: Option<Option<string>>): Decision
  {
    d.(rowIdentity := rowIdentity, tenantKey := tenantKey, principalKey := principalKey)
  }

  /** The reviewed keys that still hold, and a record of the others. */
  method CheckKeys(id: string, t: Table, d: Decision)
    returns (rowIdentity: Option<string>, tenantKey: Option<string>, principalKey: Option<Option<string>>,
             removed: set<Removal>)
    ensures rowIdentity ==
      if d.rowIdentity.Some? && d.rowIdentity.value !in ProvenIdentifiers(t) then None else d.rowIdentity
    ensures tenantKey == if d.tenantKey.Some? && !HasColumn(t, d.tenantKey.value) then None else d.tenantKey
    ensures principalKey ==
      if d.principalKey.Some? && d.principalKey.value.Some? && !HasColumn(t, d.principalKey.value.value) then None
      else d.principalKey
    ensures removed
         == Gone(id, "row identity", d.rowIdentity, rowIdentity) + Gone(id, "tenant key", d.tenantKey, tenantKey)
            + Gone(id, "principal key", Chosen(d.principalKey), Chosen(principalKey))
  {
    removed := {};
    rowIdentity, tenantKey, principalKey := d.rowIdentity, d.tenantKey, d.principalKey;
    if rowIdentity.Some? && rowIdentity.value !in ProvenIdentifiers(t) {
      removed := removed + {Removal(id, "row identity", rowIdentity.value)};
      rowIdentity := None;
    }
    if tenantKey.Some? && !HasColumn(t, tenantKey.value) {
      removed := removed + {Removal(id, "tenant key", tenantKey.value)};
      tenantKey := None;
    }
    if principalKey.Some? && principalKey.value.Some? && !HasColumn(t, principalKey.value.value) {
      removed := removed + {Removal(id, "principal key", principalKey.value.value)};
      principalKey := None;
    }
  }

  method PruneKeys(id: string, t: Table, d: Decision) returns (out: Decision, removed: set<Removal>)
    ensures out == RetainKeys(t, d)
    ensures removed == LostKeys(id, d, out)
  {
    var rowIdentity, tenantKey, principalKey, lost := CheckKeys(id, t, d);
    out, removed := WithKeys(d, rowIdentity, tenantKey, principalKey), lost;
  }

  method PruneDefinitions(ctx: Context, id: string, d: Decision) returns (out: Decision, removed: set<Removal>)
    requires id in ctx.tables
    ensures out == RetainDefinitions(ctx, id, d)
    ensures removed == LostDefinitions(id, d, out) + LostGroupings(id, d, out)
  {
    var t := ctx.tables[id];
    var measures, noMeasures := FilterEntries(d.derivedMeasures, MeasureCheck(ctx, id));
    var bands, noBands := FilterEntries(d.numericBands, BandCheck(t));
    var autoBands, noAutoBands := FilterEntries(d.autoBands, AutoBandCheck(ctx, t));
    var groupings, noGroupings := FilterEntries(d.exactGrouping, GroupingCheck(ctx, id));
    out := d.(derivedMeasures := measures, numericBands := bands, autoBands := autoBands, exactGrouping := groupings);
    removed := Removals(id, "derived measure", noMeasures) + Removals(id, "numeric band", noBands)
      + Removals(id, "auto-band", noAutoBands) + Removals(id, "exact grouping", noGroupings);
  }

  /** Values the schema no longer declares are dropped one by one; a field that is gone goes whole. */
  method PruneEnums(t: Table, m: map<string, seq<string>>)
    returns (kept: map<string, seq<string>>, shortened: set<string>)
    ensures kept == RetainEnums(t, m)
    ensures shortened == Shortened(m, kept)
  {
    kept, shortened := map[], {};
    var todo := m.Keys;
    while todo != {}
      invariant todo <= m.Keys
      invariant kept == Except(RetainEnums(t, m), todo)
      invariant shortened == ShortenedExcept(t, m, todo)
    {
      var f :| f in todo;
      ExceptNext(RetainEnums(t, m), todo, f);
      ShortenedNext(t, m, todo, f);
      if HasColumn(t, f) {
        kept := kept[f := Filter(m[f], DeclaredCheck(t, f))];
      }
      if EnumShortened(t, m, f) {
        shortened := shortened + {f};
      }
      todo := todo - {f};
    }
    ExceptNone(RetainEnums(t, m));
    AllShortened(t, m);
  }

  predicate EnumShortened(t: Table, m: map<string, seq<string>>, f: string) {
    f in m && (!HasColumn(t, f) || Filter(m[f], DeclaredCheck(t, f)) != m[f])
  }

  function ShortenedExcept(t: Table, m: map<string, seq<string>>, pending: set<string>): set<string> {
    set f | f in m && f !in pending && EnumShortened(t, m, f)
  }

  lemma ShortenedNext(t: Table, m: map<string, seq<string>>, pending: set<string>, f: string)
    requires f in pending && f in m
    ensures ShortenedExcept(t, m, pending - {f})
         == ShortenedExcept(t, m, pending) + (if EnumShortened(t, m, f) then {f} else {})
  {
  }

  lemma AllShortened(t: Table, m: map<string, seq<string>>)
    ensures ShortenedExcept(t, m, {}) == Shortened(m, RetainEnums(t, m))
  {
  }

  /** The part of a map outside `pending`. */
  function Except<V>(m: map<string, V>, pending: set<string>): map<string, V> {
    map k | k in m && k !in pending :: m[k]
  }

  lemma ExceptNext<V>(m: map<string, V>, pending: set<string>, k: string)
    requires k in pending
    ensures Except(m, pending - {k}) == if k in m then Except(m, pending)[k := m[k]] else Except(m, pending)
  {
  }

  lemma ExceptNone<V>(m: map<string, V>)
    ensures Except(m, {}) == m
  {
  }

  method PruneFields(ctx: Context, id: string, t: Table, d: Decision) returns (out: Decision, removed: set<Removal>)
    ensures out == RetainFields(ctx, t, d)
    ensures removed == LostFields(id, d, out)
  {
    var metadata, noMetadata := FilterEntries(d.fieldMetadata, MetadataCheck(t));
    var enums, noEnums := PruneEnums(t, d.fieldEnums);
    var fields, noFields := FilterEntries(d.fields, ExposureCheck(ctx, t));
    out := d.(fieldMetadata := metadata, fieldEnums := enums, fields := fields);
    removed := Removals(id, "metadata", noMetadata) + Removals(id, "enum", noEnums) + Removals(id, "field", noFields);
  }

  method PruneDecision(ctx: Context, id: string, d: Decision) returns (out: Decision, removed: set<Removal>)
    requires id in ctx.tables
    ensures out == Retained(ctx, id, d)
    ensures removed == Lost(id, d, out)
  {
    var keys, noKeys := PruneKeys(id, ctx.tables[id], d);
    var definitions, noDefinitions := PruneDefinitions(ctx, id, keys);
    var fields, noFields := PruneFields(ctx, id, ctx.tables[id], definitions);
    out, removed := fields, noKeys + noDefinitions + noFields;
    SchemaCheckLoses(ctx, id, d);
  }

  predicate Unlisted(scope: Option<DerivedScope>, path: Option<string>) {
    path.Some? && !ListsPath(scope, path.value)
  }

  /** The scope decisions that still hold, and a record of the others. */
  method ReconcileScopes(g: Graph, id: string, d: Decision)
    returns (tenantPath: Option<string>, principalPath: Option<Option<string>>, shared: Option<string>,
             removed: set<Removal>)
    requires id in g
    ensures tenantPath == if Unlisted(g[id].derivedTenant, d.tenantPath) then None else d.tenantPath
    ensures principalPath == if d.principalPath.Some? && Unlisted(g[id].derivedPrincipal, d.principalPath.value)
      then None else d.principalPath
    ensures shared == if d.shared.Some? && !SharedEligible(g, id) then None else d.shared
    ensures removed
         == Gone(id, "derived tenant path", d.tenantPath, tenantPath)
            + Gone(id, "derived principal path", Chosen(d.principalPath), Chosen(principalPath))
            + Gone(id, "shared reference", d.shared, shared)
  {
    removed := {};
    tenantPath, principalPath, shared := d.tenantPath, d.principalPath, d.shared;
    if Unlisted(g[id].derivedTenant, tenantPath) {
      removed := removed + {Removal(id, "derived tenant path", tenantPath.value)};
      tenantPath := None;
    }
    if principalPath.Some? && Unlisted(g[id].derivedPrincipal, principalPath.value) {
      removed := removed + {Removal(id, "derived principal path", principalPath.value.value)};
      principalPath := None;
    }
    if shared.Some? && !SharedEligible(g, id) {
      removed := removed + {Removal(id, "shared reference", shared.value)};
      shared := None;
    }
  }

  method Reconcile(ctx: Context, g: Graph, id: string, d: Decision) returns (out: Decision, removed: set<Removal>)
    requires id in g
    ensures out == Reconciled(ctx, g, id, d)
    ensures removed == Lost(id, d, out)
  {
    var tenantPath, principalPath, shared, noScopes := ReconcileScopes(g, id, d);
    var groupings, noGroupings := FilterEntries(d.exactGrouping, EligibleCheck(ctx, g[id]));
    removed := noScopes + Removals(id, "exact grouping", noGroupings);
    out := WithScopes(d, tenantPath, principalPath, shared, groupings);
    ScopesLose(id, d, out);
  }

  function WithScopes(d: Decision, tenantPath: Option<string>, principalPath: Option<Option<string>>,
                      shared: Option<string>, groupings: map<string, string>): Decision
  {
    d.(tenantPath := tenantPath, principalPath := principalPath, shared := shared, exactGrouping := groupings)
  }

  /** What the schema check removes for one resource. */
  function LostToSchema(ctx: Context, overrides: Overrides, id: string): set<Removal>
    requires id in overrides
  {
    if id !in ctx.tables then {Removal(id, "resource", id)}
    else Lost(id, overrides[id], Retained(ctx, id, overrides[id]))
  }

  ghost predicate SchemaLossesReported(ctx: Context, overrides: Overrides, removed: set<Removal>,
                                       pending: set<string>)
  {
    forall r :: r in removed <==>
      r.resource in overrides && r.resource !in pending && r in LostToSchema(ctx, overrides, r.resource)
  }

  lemma SchemaLossNext(ctx: Context, overrides: Overrides, removed: set<Removal>, pending: set<string>, id: string)
    requires SchemaLossesReported(ctx, overrides, removed, pending) && id in pending && id in overrides
    ensures SchemaLossesReported(ctx, overrides, removed + LostToSchema(ctx, overrides, id), pending - {id})
  {
    if id in ctx.tables {
      LostNamesResource(id, overrides[id], Retained(ctx, id, overrides[id]));
    }
  }

  method RetainAll(ctx: Context, overrides: Overrides) returns (kept: Overrides, removed: set<Removal>)
    ensures kept == Preliminary(ctx, overrides)
    ensures SchemaLossesReported(ctx, overrides, removed, {})
  {
    kept, removed := map[], {};
    var todo := overrides.Keys;
    while todo != {}
      invariant todo <= overrides.Keys
      invariant kept == Except(Preliminary(ctx, overrides), todo)
      invariant SchemaLossesReported(ctx, overrides, removed, todo)
    {
      var id :| id in todo;
      SchemaLossNext(ctx, overrides, removed, todo, id);
      ExceptNext(Preliminary(ctx, overrides), todo, id);
      if id !in ctx.tables {
        removed := removed + {Removal(id, "resource", id)};
      } else {
        var retained, dropped := PruneDecision(ctx, id, overrides[id]);
        removed := removed + dropped;
        if retained != NOTHING {
          kept := kept[id := retained];
        }
      }
      todo := todo - {id};
    }
    ExceptNone(Preliminary(ctx, overrides));
  }

  function ReconciledExcept(ctx: Context, g: Graph, kept: Overrides, pending: set<string>): Overrides
    requires kept.Keys <= g.Keys
  {
    map id | id in kept && (id in pending || Reconciled(ctx, g, id, kept[id]) != NOTHING)
      :: if id in pending then kept[id] else Reconciled(ctx, g, id, kept[id])
  }

  lemma ReconciledNext(ctx: Context, g: Graph, kept: Overrides, pending: set<string>, id: string)
    requires kept.Keys <= g.Keys && id in pending && id in kept
    ensures id in ReconciledExcept(ctx, g, kept, pending) && ReconciledExcept(ctx, g, kept, pending)[id] == kept[id]
    ensures ReconciledExcept(ctx, g, kept, pending - {id}) ==
      if Reconciled(ctx, g, id, kept[id]) != NOTHING
      then ReconciledExcept(ctx, g, kept, pending)[id := Reconciled(ctx, g, id, kept[id])]
      else ReconciledExcept(ctx, g, kept, pending) - {id}
  {
  }

  /** What the check against the survey removes for one resource. */
  function LostToSurvey(ctx: Context, g: Graph, kept: Overrides, id: string): set<Removal>
    requires id in kept && id in g
  {
    Lost(id, kept[id], Reconciled(ctx, g, id, kept[id]))
  }

  ghost predicate SurveyLossesReported(ctx: Context, g: Graph, kept: Overrides, removed: set<Removal>,
                                       pending: set<string>)
    requires kept.Keys <= g.Keys
  {
    forall r :: r in removed <==>
      r.resource in kept && r.resource !in pending && r in LostToSurvey(ctx, g, kept, r.resource)
  }

  lemma SurveyLossNext(ctx: Context, g: Graph, kept: Overrides, removed: set<Removal>, pending: set<string>, id: string)
    requires kept.Keys <= g.Keys && id in pending && id in kept
    requires SurveyLossesReported(ctx, g, kept, removed, pending)
    ensures SurveyLossesReported(ctx, g, kept, removed + LostToSurvey(ctx, g, kept, id), pending - {id})
  {
    LostNamesResource(id, kept[id], Reconciled(ctx, g, id, kept[id]));
  }

  /** Entries are edited in place and deleted when nothing is left of them. */
  method ReconcileAll(ctx: Context, g: Graph, kept: Overrides) returns (out: Overrides, removed: set<Removal>)
    requires kept.Keys <= g.Keys
    ensures out == ReconciledExcept(ctx, g, kept, {})
    ensures SurveyLossesReported(ctx, g, kept, removed, {})
  {
    out, removed := kept, {};
    var todo := kept.Keys;
    while todo != {}
      invariant todo <= kept.Keys
      invariant out == ReconciledExcept(ctx, g, kept, todo)
      invariant SurveyLossesReported(ctx, g, kept, removed, todo)
    {
      var id :| id in todo;
      SurveyLossNext(ctx, g, kept, removed, todo, id);
      ReconciledNext(ctx, g, kept, todo, id);
      var left, dropped := Reconcile(ctx, g, id, out[id]);
      removed := removed + dropped;
      out := if left == NOTHING then out - {id} else out[id := left];
      todo := todo - {id};
    }
  }

  lemma NothingLostFromItself(id: string, d: Decision)
    ensures Lost(id, d, d) == {}
  {
    ScopesLose(id, d, d);
  }

  lemma NoSurveyChangesNothing(ctx: Context, g: Graph, id: string, d: Decision)
    requires id in g && !NeedsSurvey(d)
    ensures Reconciled(ctx, g, id, d) == d
  {
  }

  lemma NoSurveyNeeded(ctx: Context, g: Graph, kept: Overrides)
    requires kept.Keys <= g.Keys && forall id | id in kept :: !NeedsSurvey(kept[id])
    requires forall id | id in kept :: kept[id] != NOTHING
    ensures ReconciledExcept(ctx, g, kept, {}) == kept
    ensures SurveyLossesReported(ctx, g, kept, {}, {})
  {
    forall id | id in kept
      ensures Reconciled(ctx, g, id, kept[id]) == kept[id] && LostToSurvey(ctx, g, kept, id) == {}
    {
      NoSurveyChangesNothing(ctx, g, id, kept[id]);
      NothingLostFromItself(id, kept[id]);
    }
    AllReconciledUnchanged(ctx, g, kept);
  }

  lemma AllReconciledUnchanged(ctx: Context, g: Graph, kept: Overrides)
    requires kept.Keys <= g.Keys && forall id | id in kept :: Reconciled(ctx, g, id, kept[id]) == kept[id]
    requires forall id | id in kept :: kept[id] != NOTHING
    ensures ReconciledExcept(ctx, g, kept, {}) == kept
  {
  }

  lemma NothingStaysNothing(ctx: Context, g: Graph, id: string)
    requires id in g
    ensures Reconciled(ctx, g, id, NOTHING) == NOTHING
  {
  }

  lemma LeftInTwoSteps(ctx: Context, overrides: Overrides, id: string)
    requires Built(ctx) && id in overrides && id in ctx.tables
    ensures
      var q := Preliminary(ctx, overrides);
      Left(ctx, overrides, id) == (if id in q then Reconciled(ctx, Surveyed(ctx, q), id, q[id]) else NOTHING)
  {
    NothingStaysNothing(ctx, Surveyed(ctx, Preliminary(ctx, overrides)), id);
  }

  lemma PrunedInTwoSteps(ctx: Context, overrides: Overrides)
    requires Built(ctx)
    ensures Preliminary(ctx, overrides).Keys <= Surveyed(ctx, Preliminary(ctx, overrides)).Keys
    ensures Pruned(ctx, overrides)
      == ReconciledExcept(ctx, Surveyed(ctx, Preliminary(ctx, overrides)), Preliminary(ctx, overrides), {})
  {
    var q := Preliminary(ctx, overrides);
    var g := Surveyed(ctx, q);
    var a, b := Pruned(ctx, overrides), ReconciledExcept(ctx, g, q, {});
    forall id ensures (id in a <==> id in b) && (id in a && id in b ==> a[id] == b[id]) {
      PrunedAt(ctx, overrides, id);
    }
    SameMaps(a, b);
  }

  lemma PrunedAt(ctx: Context, overrides: Overrides, id: string)
    requires Built(ctx)
    ensures
      var q := Preliminary(ctx, overrides);
      var g := Surveyed(ctx, q);
      && q.Keys <= g.Keys
      && (id in Pruned(ctx, overrides) <==> id in ReconciledExcept(ctx, g, q, {}))
      && (id in Pruned(ctx, overrides) ==> Pruned(ctx, overrides)[id] == ReconciledExcept(ctx, g, q, {})[id])
  {
    if id in overrides && id in ctx.tables {
      LeftInTwoSteps(ctx, overrides, id);
    }
  }

  /** The graph that the retained structural decisions shape; applying them cannot throw. */
  method Survey(ctx: Context, kept: Overrides) returns (g: Graph)
    requires Built(ctx) && Applicable(ctx.naming, ctx.built, Structural(kept))
    ensures g == Surveyed(ctx, kept)
  {
    var graph := new EvidenceGraph(ctx.built);
    var applied := graph.ApplyReviewOverrides(ctx.naming, Structural(kept));
    graph.InferDerivedScopeCandidates(ctx.collation);
    g := graph.resources;
  }

  /** Entries that need no survey are passed over; the others are checked against the surveyed graph. */
  method ReconcileSurveyed(ctx: Context, kept: Overrides) returns (pruned: Overrides, dropped: set<Removal>)
    requires Built(ctx) && Applicable(ctx.naming, ctx.built, Structural(kept)) && kept.Keys <= ctx.built.Keys
    requires forall id | id in kept :: kept[id] != NOTHING
    ensures pruned == ReconciledExcept(ctx, Surveyed(ctx, kept), kept, {})
    ensures SurveyLossesReported(ctx, Surveyed(ctx, kept), kept, dropped, {})
  {
    if exists id | id in kept :: NeedsSurvey(kept[id]) {
      var g := Survey(ctx, kept);
      pruned, dropped := ReconcileAll(ctx, g, kept);
    } else {
      NoSurveyNeeded(ctx, Surveyed(ctx, kept), kept);
      pruned, dropped := kept, {};
    }
  }

  /** What one recorded decision has lost in the end. */
  function LostOf(ctx: Context, overrides: Overrides, pruned: Overrides, id: string): set<Removal>
    requires id in overrides
  {
    if id !in ctx.tables then {Removal(id, "resource", id)} else Lost(id, overrides[id], Of(pruned, id))
  }

  lemma LostOverall(ctx: Context, overrides: Overrides, id: string)
    requires Built(ctx) && id in overrides
    ensures
      var q := Preliminary(ctx, overrides);
      && q.Keys <= Surveyed(ctx, q).Keys
      && LostOf(ctx, overrides, Pruned(ctx, overrides), id)
         == LostToSchema(ctx, overrides, id) + (if id in q then LostToSurvey(ctx, Surveyed(ctx, q), q, id) else {})
  {
    var q := Preliminary(ctx, overrides);
    PrunedInTwoSteps(ctx, overrides);
    OfPruned(ctx, overrides, id);
    if id in ctx.tables {
      LeftOverall(ctx, overrides, id);
    }
  }

  lemma PreliminaryEntry(ctx: Context, overrides: Overrides, id: string)
    requires Built(ctx) && id in overrides && id in ctx.tables
    ensures id in Surveyed(ctx, Preliminary(ctx, overrides))
    ensures id in Preliminary(ctx, overrides) <==> Retained(ctx, id, overrides[id]) != NOTHING
    ensures id in Preliminary(ctx, overrides) ==> Preliminary(ctx, overrides)[id] == Retained(ctx, id, overrides[id])
  {
  }

  lemma LeftOverall(ctx: Context, overrides: Overrides, id: string)
    requires Built(ctx) && id in overrides && id in ctx.tables
    ensures
      var q := Preliminary(ctx, overrides);
      && id in Surveyed(ctx, q)
      && Lost(id, overrides[id], Left(ctx, overrides, id))
         == Lost(id, overrides[id], Retained(ctx, id, overrides[id]))
            + (if id in q then LostToSurvey(ctx, Surveyed(ctx, q), q, id) else {})
  {
    var g, once := Surveyed(ctx, Preliminary(ctx, overrides)), Retained(ctx, id, overrides[id]);
    PreliminaryEntry(ctx, overrides, id);
    LostInTwo(ctx, g, id, overrides[id]);
    SurveyLoses(ctx, g, id, once);
    assert Left(ctx, overrides, id) == Reconciled(ctx, g, id, once);
  }

  lemma SurveyLoses(ctx: Context, g: Graph, id: string, d: Decision)
    requires id in g
    ensures d == NOTHING ==> Lost(id, d, Reconciled(ctx, g, id, d)) == {}
  {
    if d == NOTHING {
      NothingStaysNothing(ctx, g, id);
      NothingLostFromItself(id, NOTHING);
    }
  }

  /** The report names exactly what is missing from the pruned overrides. */
  ghost predicate LossesReported(ctx: Context, overrides: Overrides, pruned: Overrides, removed: set<Removal>) {
    forall r :: r in removed <==> r.resource in overrides && r in LostOf(ctx, overrides, pruned, r.resource)
  }

  lemma AllLossesReported(ctx: Context, overrides: Overrides, first: set<Removal>, second: set<Removal>)
    requires Built(ctx) && SchemaLossesReported(ctx, overrides, first, {})
    requires Preliminary(ctx, overrides).Keys <= Surveyed(ctx, Preliminary(ctx, overrides)).Keys
    requires SurveyLossesReported(
      ctx, Surveyed(ctx, Preliminary(ctx, overrides)), Preliminary(ctx, overrides), second, {})
    ensures LossesReported(ctx, overrides, Pruned(ctx, overrides), first + second)
  {
    forall r ensures r in first + second <==>
      r.resource in overrides && r in LostOf(ctx, overrides, Pruned(ctx, overrides), r.resource)
    {
      if r.resource in overrides {
        LostOverall(ctx, overrides, r.resource);
      }
    }
  }

  predicate OptionPart<T(==)>(now: Option<T>, was: Option<T>) {
    now == was || now.None?
  }

  predicate EntriesPart<V(==)>(now: map<string, V>, was: map<string, V>) {
    now.Keys <= was.Keys && forall k | k in now :: now[k] == was[k]
  }

  /** Only whole entries and values of a vocabulary are missing; no absent key or path was there to lose. */
  predicate PartOf(now: Decision, was: Decision) {
    && now.metadata == was.metadata && now.minimumCohort == was.minimumCohort
    && OptionPart(now.rowIdentity, was.rowIdentity) && OptionPart(now.tenantKey, was.tenantKey)
    && (now.principalKey == was.principalKey || (now.principalKey.None? && Chosen(was.principalKey).Some?))
    && OptionPart(now.tenantPath, was.tenantPath) && OptionPart(now.shared, was.shared)
    && (now.principalPath == was.principalPath || (now.principalPath.None? && Chosen(was.principalPath).Some?))
    && EntriesPart(now.derivedMeasures, was.derivedMeasures) && EntriesPart(now.numericBands, was.numericBands)
    && EntriesPart(now.autoBands, was.autoBands) && EntriesPart(now.exactGrouping, was.exactGrouping)
    && EntriesPart(now.fieldMetadata, was.fieldMetadata) && EntriesPart(now.fields, was.fields)
    && now.fieldEnums.Keys <= was.fieldEnums.Keys
  }

  lemma RetainedIsPart(ctx: Context, id: string, d: Decision)
    requires id in ctx.tables
    ensures PartOf(Retained(ctx, id, d), d)
  {
  }

  lemma ReconciledIsPart(ctx: Context, g: Graph, id: string, d: Decision)
    requires id in g
    ensures PartOf(Reconciled(ctx, g, id, d), d)
  {
  }

  lemma EntriesWithoutLoss<V>(now: map<string, V>, was: map<string, V>)
    requires EntriesPart(now, was) && was.Keys - now.Keys == {}
    ensures now == was
  {
    forall k | k in was ensures k in now {
      assert k !in was.Keys - now.Keys;
    }
  }

  lemma VocabulariesWithoutLoss(now: map<string, seq<string>>, was: map<string, seq<string>>)
    requires now.Keys <= was.Keys && Shortened(was, now) == {}
    ensures now == was
  {
    forall f | f in was ensures f in now && now[f] == was[f] {
      assert f !in Shortened(was, now);
    }
  }

  lemma OptionWithoutLoss(id: string, kind: string, now: Option<string>, was: Option<string>)
    requires OptionPart(now, was) && Gone(id, kind, was, now) == {}
    ensures now == was
  {
  }

  /** A part that has lost nothing is the whole. */
  lemma PartWithoutLoss(id: string, now: Decision, was: Decision)
    requires PartOf(now, was) && Lost(id, was, now) == {}
    ensures now == was
  {
    assert LostKeys(id, was, now) == {} && LostScopes(id, was, now) == {} && LostDefinitions(id, was, now) == {}
      && LostGroupings(id, was, now) == {} && LostFields(id, was, now) == {};
    EntriesWithoutLoss(now.derivedMeasures, was.derivedMeasures);
    EntriesWithoutLoss(now.numericBands, was.numericBands);
    EntriesWithoutLoss(now.autoBands, was.autoBands);
    EntriesWithoutLoss(now.exactGrouping, was.exactGrouping);
    EntriesWithoutLoss(now.fieldMetadata, was.fieldMetadata);
    EntriesWithoutLoss(now.fields, was.fields);
    VocabulariesWithoutLoss(now.fieldEnums, was.fieldEnums);
    OptionWithoutLoss(id, "row identity", now.rowIdentity, was.rowIdentity);
    OptionWithoutLoss(id, "tenant key", now.tenantKey, was.tenantKey);
    OptionWithoutLoss(id, "derived tenant path", now.tenantPath, was.tenantPath);
    OptionWithoutLoss(id, "shared reference", now.shared, was.shared);
    assert now.principalKey == was.principalKey && now.principalPath == was.principalPath;
  }

  lemma LossOfOne(ctx: Context, overrides: Overrides, id: string)
    requires Built(ctx) && id in overrides && id in ctx.tables
    ensures LostOf(ctx, overrides, Pruned(ctx, overrides), id) == {} <==> Left(ctx, overrides, id) == overrides[id]
  {
    var d, once, left := overrides[id], Retained(ctx, id, overrides[id]), Left(ctx, overrides, id);
    OfPruned(ctx, overrides, id);
    assert id in Surveyed(ctx, Preliminary(ctx, overrides));
    var g := Surveyed(ctx, Preliminary(ctx, overrides));
    LostInTwo(ctx, g, id, d);
    if Lost(id, d, left) == {} {
      RetainedIsPart(ctx, id, d);
      PartWithoutLoss(id, once, d);
      ReconciledIsPart(ctx, g, id, once);
      PartWithoutLoss(id, left, once);
    } else if left == d {
      NothingLostFromItself(id, d);
    }
  }

  /** The report is empty exactly when every decision survived whole. */
  lemma NothingReported(ctx: Context, overrides: Overrides, removed: set<Removal>)
    requires Built(ctx) && LossesReported(ctx, overrides, Pruned(ctx, overrides), removed)
    ensures removed == {} <==> NothingLost(ctx, overrides)
  {
    var p := Pruned(ctx, overrides);
    forall id | id in overrides
      ensures LostOf(ctx, overrides, p, id) == {} <==> id in ctx.tables && Left(ctx, overrides, id) == overrides[id]
      ensures forall r | r in LostOf(ctx, overrides, p, id) :: r in removed
    {
      if id in ctx.tables {
        LossOfOne(ctx, overrides, id);
        LostNamesResource(id, overrides[id], Of(p, id));
      } else {
        assert Removal(id, "resource", id) in LostOf(ctx, overrides, p, id);
      }
    }
    if removed == {} {
      forall id | id in overrides ensures LostOf(ctx, overrides, p, id) == {} {
        assert forall r :: r !in LostOf(ctx, overrides, p, id);
      }
    }
  }

  /**
   The pruner. It never throws while it surveys the graph, it returns exactly what is left of
   every decision, and it reports a removal exactly when some decision did not survive whole.
   */
  method PruneAutoBoundaryReviewOverrides(ctx: Context, overrides: Overrides)
    returns (pruned: Overrides, removed: set<Removal>)
    requires Reviewable(ctx, overrides)
    ensures pruned == Pruned(ctx, overrides)
    ensures removed == {} <==> NothingLost(ctx, overrides)
    ensures LossesReported(ctx, overrides, pruned, removed)
  {
    PrunedInTwoSteps(ctx, overrides);
    PrunedIsApplicable(ctx, overrides);
    var kept, dropped;
    kept, removed := RetainAll(ctx, overrides);
    pruned, dropped := ReconcileSurveyed(ctx, kept);
    AllLossesReported(ctx, overrides, removed, dropped);
    removed := removed + dropped;
    NothingReported(ctx, overrides, removed);
  }
}
