/**
 The validator of a reviewed candidate: what it demands of the header, the budgets, each
 resource, its relationships and its definitions.
 */
module Narrowing {
  import opened Catalog
  import opened Evidence
  import opened Pack
  import opened Boundary
  import opened Sequences
  import opened ScopeProof
  import opened ChildCount
  import opened DependentAuthority

  const SHARED_REFERENCE_ACKNOWLEDGEMENT := "table_has_no_per_tenant_rows"
  const DISABLED_UNREVIEWED := "disabled_unreviewed"

  /** No duplicates, and nothing beyond what is allowed. */
  predicate Subset(values: seq<string>, allowed: seq<string>) {
    && (forall i, j | 0 <= i < j < |values| :: values[i] != values[j])
    && (forall i | 0 <= i < |values| :: values[i] in allowed)
  }

  predicate SubsetOfKeys(values: seq<string>, allowed: set<string>) {
    && (forall i, j | 0 <= i < j < |values| :: values[i] != values[j])
    && (forall i | 0 <= i < |values| :: values[i] in allowed)
  }

  // ---- Header and budgets

  predicate HeaderNarrows(rules: Rules, draft: Draft, c: Draft) {
    && c.schemaVersion == draft.schemaVersion
    && c.activation == DISABLED_UNREVIEWED
    && (draft.profile == "production" <==> c.profile == "production")
    && c.profile in {"development", "staging", "production"}
    && c.trustedContext.provider == (if c.profile == "production" then "http_claims" else "environment")
    && rules.packName(c.packName)
    && c.fixed == draft.fixed
    && c.timezone == draft.timezone
    && c.organizationScope == draft.organizationScope
    && (c.organizationScope.Some? ==>
          && rules.organizationId(c.organizationScope.value.organizationId)
          && c.organizationScope.value.mode == "single_organization"
          && c.organizationScope.value.acknowledgement == "all_rows_belong_to_one_organization")
    && (c.timezone.Some? ==> c.timezone.value == "UTC")
    && c.trustedContext == draft.trustedContext
  }

  predicate BudgetNarrows(draft: Budgets, c: Budgets, key: string)
    requires key in c
  {
    if key in draft then
      && SafeInteger(c[key]) && SafeInteger(draft[key])
      && 1 <= c[key] <= (if key in CEILINGS then CEILINGS[key] else draft[key])
    else
      key in CEILINGS && SafeInteger(c[key]) && 1 <= c[key] <= CEILINGS[key]
  }

  predicate BudgetsNarrow(draft: Budgets, c: Budgets) {
    && draft.Keys <= c.Keys
    && (forall key | key in c :: BudgetNarrows(draft, c, key))
    && BudgetsFit(c)
  }

  /** The checks between budgets, whatever the draft. */
  predicate BudgetsFit(c: Budgets) {
    && ("max_ranked_groups" in c ==> c["max_ranked_groups"] >= c["max_groups"])
    && c["max_top_n"] <= c["max_groups"]
    && DerivedScopeHopLimit(c) <= 3
    && AnalysisHopLimit(c) <= 3
  }

  // ---- One resource

  predicate IdentityKept(o: Resource, r: Resource) {
    && r.schema == o.schema && r.table == o.table && r.primaryKey == o.primaryKey
    && r.tenantKey == o.tenantKey && r.principalKey == o.principalKey
    && r.tenantScope == o.tenantScope && r.sharedReference == o.sharedReference && r.principalScope == o.principalScope
    && r.fieldTypes == o.fieldTypes && r.rlsSession == o.rlsSession && r.metadata == o.metadata
  }

  function TenantModes(r: Resource): nat {
    (if r.tenantKey.Some? then 1 else 0)
    + (if r.tenantScope.Some? then 1 else 0)
    + (if r.sharedReference.Some? then 1 else 0)
  }

  /** The hop limit as a count; a limit below zero admits nothing, like zero. */
  function ScopeHops(b: Budgets): nat {
    var limit := DerivedScopeHopLimit(b);
    if limit < 0 then 0 else limit
  }

  ghost predicate ScopeReviewed(r: Resource, resources: map<string, Resource>, single: bool, hops: nat) {
    && (if single then TenantModes(r) == 0 else TenantModes(r) == 1)
    && (r.sharedReference.Some? ==>
          r.sharedReference.value == SharedReference("shared_reference", SHARED_REFERENCE_ACKNOWLEDGEMENT))
    && (r.principalKey.None? || r.principalScope.None?)
    && (r.tenantScope.Some? ==> ScopeProven(r.id, r.tenantScope.value, resources, Tenant, hops))
    && (r.principalScope.Some? ==> ScopeProven(r.id, r.principalScope.value, resources, Principal, hops))
  }

  predicate EnumsNarrow(o: Resource, r: Resource) {
    && r.fieldEnums.Keys <= o.fieldEnums.Keys
    && (forall f | f in r.fieldEnums :: Subset(r.fieldEnums[f], o.fieldEnums[f]))
    && (forall f | f in o.fieldEnums && f !in r.fieldEnums :: f !in r.filterable && f !in r.groupable)
  }

  predicate FunctionsNarrow(o: Resource, r: Resource) {
    r.aggregateFunctions.Some? ==>
      var mine, drafted := r.aggregateFunctions.value, o.aggregateFunctions.GetOr(map[]);
      && (forall f | f in mine :: f in r.aggregates && f in drafted && Subset(mine[f], drafted[f]))
  }

  predicate PresenceNarrows(o: Resource, r: Resource) {
    r.presence.Some? ==>
      && Subset(r.presence.value, o.presence.GetOr([]))
      && (forall i | 0 <= i < |r.presence.value| ::
            r.presence.value[i] in r.selectable && r.presence.value[i] !in r.modelWithheld.GetOr([]))
  }

  predicate OperatorsNarrow(mine: map<string, seq<string>>, drafted: map<string, seq<string>>) {
    forall f | f in mine :: f in drafted && Subset(mine[f], drafted[f])
  }

  predicate FieldsNarrow(o: Resource, r: Resource) {
    && Subset(r.selectable, o.selectable)
    && Subset(r.sortable, o.sortable)
    && Subset(r.groupable, o.groupable)
    && Subset(r.aggregates, o.aggregates)
    && Subset(r.countDistinct, o.countDistinct)
    && OperatorsNarrow(r.filterable, o.filterable)
    && OperatorsNarrow(r.timeBuckets, o.timeBuckets)
  }

  predicate ExposureNarrows(o: Resource, r: Resource) {
    && Subset(o.keptOut, r.keptOut)
    && SubsetOfKeys(r.keptOut, o.fieldTypes.Keys)
    && Subset(r.modelWithheld.GetOr([]), o.modelWithheld.GetOr([]))
    && SubsetOfKeys(r.modelWithheld.GetOr([]), o.fieldTypes.Keys)
  }

  predicate KeptOutUnavailable(r: Resource) {
    forall i | 0 <= i < |r.keptOut| ::
      var f := r.keptOut[i];
      && f !in r.modelWithheld.GetOr([])
      && f !in r.selectable && f !in r.filterable && f !in r.sortable && f !in r.groupable
      && f !in r.aggregates && f !in r.countDistinct && f !in r.timeBuckets
  }

  predicate CohortNarrows(o: Resource, r: Resource) {
    && SafeInteger(r.minimumCohort)
    && r.minimumCohort >= 1
    && r.minimumCohort >= o.minimumCohort
    && r.cohortOverridden == o.cohortOverridden
    && r.suppressionAwareTotals
  }

  // ---- Definitions of one resource

  const MAXIMUM_DEFINITIONS := 16

  ghost predicate MeasuresReviewed(rules: Rules, resources: seq<Resource>, single: bool, r: Resource) {
    var ds := r.derivedMeasures.GetOr([]);
    |ds| <= 16 && MeasuresReviewedUpTo(rules, resources, single, r, ds, |ds|)
  }

  /** The first n definitions have different names and each validates. */
  ghost predicate MeasuresReviewedUpTo(rules: Rules, resources: seq<Resource>, single: bool, r: Resource,
                                       ds: seq<DerivedMeasure>, n: nat)
    requires n <= |ds|
  {
    && (forall i, j | 0 <= i < j < n :: ds[i].name != ds[j].name)
    && (forall i | 0 <= i < n :: MeasureReviewed(rules, resources, single, r, ds[i]))
  }

  ghost predicate NumericBandsReviewed(rules: Rules, resources: seq<Resource>, r: Resource) {
    var ds := r.numericBands.GetOr([]);
    && |ds| <= 16
    && (forall i | 0 <= i < |ds| :: NumericBandReviewed(rules, resources, r, ds[i]))
    && (forall i, j | 0 <= i < j < |ds| :: rules.numericBand(ds[i]).value.name != rules.numericBand(ds[j]).value.name)
  }

  ghost predicate AutoBandsReviewed(rules: Rules, r: Resource) {
    var ds := r.autoBands.GetOr([]);
    && |ds| <= 16
    && (forall i | 0 <= i < |ds| :: AutoBandReviewed(rules, r, ds[i]))
    && (forall i, j | 0 <= i < j < |ds| :: rules.autoBand(ds[i]).value.field != rules.autoBand(ds[j]).value.field)
  }

  // ---- Relationships

  /** The draft's relationships by id; a later one replaces an earlier one. */
  function RelationshipsById(rs: seq<Relationship>): (m: map<string, Relationship>)
    ensures forall id | id in m :: m[id] in rs && m[id].id == id
    ensures forall r | r in rs :: r.id in m
  {
    if rs == [] then map[]
    else
      var last := rs[|rs| - 1];
      assert rs == rs[..|rs| - 1] + [last];
      RelationshipsById(rs[..|rs| - 1])[last.id := last]
  }

  predicate MatchesReviewedDraft(expected: Relationship, r: Relationship) {
    if expected.unmatchedRows != Some(ReviewRequired) then r == expected
    else
      && (r.unmatchedRows == Some(Exclude) || r.unmatchedRows == Some(KeepNull))
      && r.(unmatchedRows := None) == expected.(unmatchedRows := None)
  }

  /** A relationship without proof stands for one direct link on the columns it names. */
  function ReviewedLinks(source: string, r: Relationship): seq<Link> {
    if r.proof.Some? then r.proof.value.links
    else [Link(r.id, source, r.target, r.localColumns, r.targetColumns,
               Uniqueness(UniqueConstraint, "legacy_activated_relationship", r.targetColumns), false, ManyToOne, 1)]
  }

  predicate UsesKeptOutJoinKey(l: Link, source: Resource, target: Resource) {
    || (exists i | 0 <= i < |l.sourceColumns| :: l.sourceColumns[i] in source.keptOut)
    || (exists i | 0 <= i < |l.targetColumns| :: l.targetColumns[i] in target.keptOut)
  }

  predicate TrustedTenantLink(l: Link, source: Resource, target: Resource) {
    && |l.sourceColumns| == 1 && |l.targetColumns| == 1
    && source.tenantKey == Some(l.sourceColumns[0])
    && target.tenantKey == Some(l.targetColumns[0])
  }

  predicate LinkReviewed(l: Link, resources: map<string, Resource>) {
    && l.source in resources
    && l.target in resources
    && l.cardinality == ManyToOne
    && l.maxFanOut == 1
    && l.uniqueness.columns == l.targetColumns
    && (UsesKeptOutJoinKey(l, resources[l.source], resources[l.target]) ==>
          TrustedTenantLink(l, resources[l.source], resources[l.target]))
  }

  predicate RelationshipNarrows(drafted: map<string, Relationship>, source: string, r: Relationship,
                                resources: map<string, Resource>, limit: int)
  {
    && r.id in drafted
    && !(drafted[r.id].unmatchedRows == Some(ReviewRequired) && r.unmatchedRows == Some(ReviewRequired))
    && MatchesReviewedDraft(drafted[r.id], r)
    && r.Depth() <= limit
    && |ReviewedLinks(source, r)| == r.Depth()
    && 1 <= |ReviewedLinks(source, r)| <= limit
    && (forall k | 0 <= k < |ReviewedLinks(source, r)| :: LinkReviewed(ReviewedLinks(source, r)[k], resources))
  }

  predicate RelationshipsNarrow(o: Resource, r: Resource, resources: map<string, Resource>, limit: int) {
    forall k | 0 <= k < |r.relationships| ::
      RelationshipNarrows(RelationshipsById(o.relationships), r.id, r.relationships[k], resources, limit)
  }

  // ---- The whole candidate

  /** Everything about a resource that is compared with the draft's. */
  predicate ComparedWithDraft(o: Resource, r: Resource) {
    && IdentityKept(o, r)
    && EnumsNarrow(o, r)
    && FieldsNarrow(o, r)
    && FunctionsNarrow(o, r)
    && PresenceNarrows(o, r)
    && ExposureNarrows(o, r)
    && CohortNarrows(o, r)
  }

  /** Everything about a resource that the candidate itself has to satisfy. */
  ghost predicate SelfConsistent(rules: Rules, c: Draft, r: Resource) {
    && ScopeReviewed(r, ById(c.resources), c.SingleOrganization(), ScopeHops(c.budgets))
    && MeasuresReviewed(rules, c.resources, c.SingleOrganization(), r)
    && NumericBandsReviewed(rules, c.resources, r)
    && AutoBandsReviewed(rules, r)
    && KeptOutUnavailable(r)
  }

  ghost predicate ResourceNarrows(rules: Rules, draft: Draft, c: Draft, r: Resource) {
    && r.id in ById(draft.resources)
    && ComparedWithDraft(ById(draft.resources)[r.id], r)
    && SelfConsistent(rules, c, r)
    && RelationshipsNarrow(ById(draft.resources)[r.id], r, ById(c.resources), AnalysisHopLimit(c.budgets))
  }

  ghost predicate Narrows(rules: Rules, draft: Draft, c: Draft) {
    && HeaderNarrows(rules, draft, c)
    && BudgetsNarrow(draft.budgets, c.budgets)
    && 1 <= |c.resources| <= |draft.resources|
    && DistinctIds(c.resources)
    && ResourcesNarrow(rules, draft, c, |c.resources|)
  }

  ghost predicate ResourcesNarrow(rules: Rules, draft: Draft, c: Draft, n: nat)
    requires n <= |c.resources|
  {
    forall i | 0 <= i < n :: ResourceNarrows(rules, draft, c, c.resources[i])
  }

  // ---- The validator

  method AssertReviewedDerivedMeasures(rules: Rules, resources: seq<Resource>, single: bool, r: Resource)
    returns (ok: bool)
    ensures ok <==> MeasuresReviewed(rules, resources, single, r)
  {
    var ds := r.derivedMeasures.GetOr([]);
    if |ds| > MAXIMUM_DEFINITIONS {
      return false;
    }
    var names := {};
    for k := 0 to |ds|
      invariant names == NamesUpTo(ds, k)
      invariant MeasuresReviewedUpTo(rules, resources, single, r, ds, k)
    {
      var reviewed := AssertMeasure(rules, resources, single, r, ds[k]);
      if ds[k].name in names || !reviewed {
        RefusedMeasure(rules, resources, single, r, ds, k);
        return false;
      }
      NextMeasure(rules, resources, single, r, ds, k);
      NamesNext(ds, k);
      names := names + {ds[k].name};
    }
    return true;
  }

  function NamesUpTo(ds: seq<DerivedMeasure>, k: nat): (names: set<string>)
    requires k <= |ds|
    ensures forall n :: n in names <==> exists i | 0 <= i < k :: ds[i].name == n
  {
    set i | 0 <= i < k :: ds[i].name
  }

  lemma NamesNext(ds: seq<DerivedMeasure>, k: nat)
    requires k < |ds|
    ensures NamesUpTo(ds, k + 1) == NamesUpTo(ds, k) + {ds[k].name}
  {
  }

  lemma NextMeasure(rules: Rules, resources: seq<Resource>, single: bool, r: Resource, ds: seq<DerivedMeasure>, k: nat)
    requires k < |ds| && MeasuresReviewedUpTo(rules, resources, single, r, ds, k)
    requires MeasureReviewed(rules, resources, single, r, ds[k]) && forall i | 0 <= i < k :: ds[i].name != ds[k].name
    ensures MeasuresReviewedUpTo(rules, resources, single, r, ds, k + 1)
  {
  }

  lemma RefusedMeasure(rules: Rules, resources: seq<Resource>, single: bool, r: Resource, ds: seq<DerivedMeasure>,
                       k: nat)
    requires k < |ds|
    requires !MeasureReviewed(rules, resources, single, r, ds[k]) || exists i | 0 <= i < k :: ds[i].name == ds[k].name
    ensures !MeasuresReviewedUpTo(rules, resources, single, r, ds, |ds|)
  {
  }

  method AssertReviewedNumericBands(rules: Rules, resources: seq<Resource>, r: Resource) returns (ok: bool)
    ensures ok <==> NumericBandsReviewed(rules, resources, r)
  {
    var ds := r.numericBands.GetOr([]);
    if |ds| > MAXIMUM_DEFINITIONS {
      return false;
    }
    var names := {};
    for k := 0 to |ds|
      invariant forall i | 0 <= i < k :: NumericBandReviewed(rules, resources, r, ds[i])
      invariant forall n :: n in names <==> exists i | 0 <= i < k :: rules.numericBand(ds[i]).value.name == n
      invariant forall i, j | 0 <= i < j < k ::
        rules.numericBand(ds[i]).value.name != rules.numericBand(ds[j]).value.name
    {
      var reviewed := AssertNumericBand(rules, resources, r, ds[k]);
      if !reviewed {
        return false;
      }
      var normalized := rules.numericBand(ds[k]).value;
      if normalized.name in names {
        return false;
      }
      names := names + {normalized.name};
    }
    return true;
  }

  method AssertReviewedAutoBands(rules: Rules, r: Resource) returns (ok: bool)
    ensures ok <==> AutoBandsReviewed(rules, r)
  {
    var ds := r.autoBands.GetOr([]);
    if |ds| > MAXIMUM_DEFINITIONS {
      return false;
    }
    var fields := {};
    for k := 0 to |ds|
      invariant forall i | 0 <= i < k :: AutoBandReviewed(rules, r, ds[i])
      invariant forall n :: n in fields <==> exists i | 0 <= i < k :: rules.autoBand(ds[i]).value.field == n
      invariant forall i, j | 0 <= i < j < k :: rules.autoBand(ds[i]).value.field != rules.autoBand(ds[j]).value.field
    {
      var reviewed := AssertAutoBand(rules, r, ds[k]);
      if !reviewed {
        return false;
      }
      var normalized := rules.autoBand(ds[k]).value;
      if normalized.field in fields {
        return false;
      }
      fields := fields + {normalized.field};
    }
    return true;
  }

  method AssertReviewedResourceScope(r: Resource, resources: map<string, Resource>, single: bool, hops: nat)
    returns (ok: bool)
    ensures ok <==> ScopeReviewed(r, resources, single, hops)
  {
    if TenantModes(r) != (if single then 0 else 1) {
      return false;
    }
    if r.sharedReference.Some?
      && (r.sharedReference.value.mode != "shared_reference"
          || r.sharedReference.value.acknowledgement != SHARED_REFERENCE_ACKNOWLEDGEMENT)
    {
      return false;
    }
    if r.principalKey.Some? && r.principalScope.Some? {
      return false;
    }
    if r.tenantScope.Some? {
      var proven := AssertDerivedScopePath(r.id, r.tenantScope.value, resources, Tenant, hops);
      if !proven {
        return false;
      }
    }
    if r.principalScope.Some? {
      ok := AssertDerivedScopePath(r.id, r.principalScope.value, resources, Principal, hops);
    } else {
      ok := true;
    }
  }

  method AssertResourceNarrows(rules: Rules, draft: Draft, c: Draft, drafted: map<string, Resource>,
                               resources: map<string, Resource>, r: Resource)
    returns (ok: bool)
    requires drafted == ById(draft.resources) && resources == ById(c.resources)
    ensures ok <==> ResourceNarrows(rules, draft, c, r)
  {
    if r.id !in drafted || !ComparedWithDraft(drafted[r.id], r) {
      return false;
    }
    var scoped := AssertReviewedResourceScope(r, resources, c.SingleOrganization(), ScopeHops(c.budgets));
    var measures := AssertReviewedDerivedMeasures(rules, c.resources, c.SingleOrganization(), r);
    var bands := AssertReviewedNumericBands(rules, c.resources, r);
    var autoBands := AssertReviewedAutoBands(rules, r);
    ok := scoped && measures && bands && autoBands && KeptOutUnavailable(r)
          && RelationshipsNarrow(drafted[r.id], r, resources, AnalysisHopLimit(c.budgets));
  }

  method AssertResourcesNarrow(rules: Rules, draft: Draft, c: Draft) returns (ok: bool)
    ensures ok <==> ResourcesNarrow(rules, draft, c, |c.resources|)
  {
    var drafted, resources := ById(draft.resources), ById(c.resources);
    for i := 0 to |c.resources|
      invariant ResourcesNarrow(rules, draft, c, i)
    {
      ok := AssertResourceNarrows(rules, draft, c, drafted, resources, c.resources[i]);
      if !ok {
        OneFailureSuffices(rules, draft, c, i);
        return;
      }
      OneMoreNarrows(rules, draft, c, i);
    }
    return true;
  }

  lemma OneFailureSuffices(rules: Rules, draft: Draft, c: Draft, i: nat)
    requires i < |c.resources| && !ResourceNarrows(rules, draft, c, c.resources[i])
    ensures !ResourcesNarrow(rules, draft, c, |c.resources|)
  {
  }

  lemma OneMoreNarrows(rules: Rules, draft: Draft, c: Draft, i: nat)
    requires i < |c.resources| && ResourcesNarrow(rules, draft, c, i)
      && ResourceNarrows(rules, draft, c, c.resources[i])
    ensures ResourcesNarrow(rules, draft, c, i + 1)
  {
  }

  /** True where the original returns, false where it throws. */
  method AssertBoundaryCandidateNarrowsDraft(rules: Rules, draft: Draft, c: Draft) returns (ok: bool)
    ensures ok <==> Narrows(rules, draft, c)
  {
    if !HeaderNarrows(rules, draft, c) || !BudgetsNarrow(draft.budgets, c.budgets) {
      return false;
    }
    DistinctIdsFillTheTable(c.resources);
    if |c.resources| < 1 || |c.resources| > |draft.resources| || |ById(c.resources)| != |c.resources| {
      return false;
    }
    ok := AssertResourcesNarrow(rules, draft, c);
  }

  lemma DistinctIdsStep(resources: seq<Resource>, n: nat)
    requires |resources| == n + 1
    ensures DistinctIds(resources) <==> DistinctIds(resources[..n]) && resources[n].id !in IdsOf(resources[..n])
  {
    var init := resources[..n];
    if DistinctIds(init) && resources[n].id !in IdsOf(init) {
      forall i, j | 0 <= i < j < |resources| ensures resources[i].id != resources[j].id {
        assert init[i] in init;
        if j < n { assert init[i].id != init[j].id; }
      }
    }
  }

  /** The lookup table has as many entries as the list exactly when no id repeats. */
  lemma {:induction false} DistinctIdsFillTheTable(resources: seq<Resource>)
    ensures |ById(resources)| <= |resources|
    ensures |ById(resources)| == |resources| <==> DistinctIds(resources)
  {
    if resources != [] {
      var n := |resources| - 1;
      DistinctIdsFillTheTable(resources[..n]);
      DistinctIdsStep(resources, n);
      OneMoreKey(ById(resources[..n]), resources[n].id, resources[n]);
    }
  }

  lemma OneMoreKey(m: map<string, Resource>, id: string, r: Resource)
    ensures |m[id := r]| == if id in m then |m| else |m| + 1
  {
    assert m[id := r].Keys == m.Keys + {id};
  }
}
