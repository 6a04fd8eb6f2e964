/**
 What an accepted candidate may differ in from its draft, without going through the validator's
 checks: its header is the draft's but for the pack name and a choice of local profiles; no
 resource permits anything the draft did not permit or lifts a restriction; a suppressed group
 stays suppressed along every chain of reviews, and a cohort may be replaced by exactly the safe
 integers from the draft's on.
 */
module Acceptance {
  import opened Catalog
  import opened Evidence
  import opened Pack
  import opened Boundary
  import opened Sequences
  import opened ScopeProof
  import opened DependentAuthority
  import opened Narrowing
  import opened Review
  import opened JoinKeys

  // ---- The header

  /** A production boundary stays one; a local one may move between development and staging. */
  predicate ProfileMayBecome(was: string, now: string) {
    if was == "production" then now == "production" else now == "development" || now == "staging"
  }

  /** What a draft's own header has to satisfy to be accepted in any form. */
  predicate HeaderSound(rules: Rules, draft: Draft) {
    && draft.trustedContext.provider == (if draft.profile == "production" then "http_claims" else "environment")
    && (draft.timezone.None? || draft.timezone.value == "UTC")
    && (draft.organizationScope.None?
        || (&& draft.organizationScope.value.mode == "single_organization"
            && draft.organizationScope.value.acknowledgement == "all_rows_belong_to_one_organization"
            && rules.organizationId(draft.organizationScope.value.organizationId)))
  }

  /** The two differ at most in profile, pack name, activation marker, budgets, resources and open decisions. */
  predicate SameHeader(draft: Draft, c: Draft) {
    c == draft.(
      profile := c.profile, packName := c.packName, activation := c.activation, budgets := c.budgets,
      resources := c.resources, unresolved := c.unresolved)
  }

  ghost predicate HeaderAllowed(rules: Rules, draft: Draft, c: Draft) {
    && SameHeader(draft, c) && HeaderSound(rules, draft) && c.activation == "disabled_unreviewed"
    && rules.packName(c.packName) && ProfileMayBecome(draft.profile, c.profile)
  }

  /**
   The header check, in one sentence: everything but profile and pack name is the draft's, the
   trusted context, the locks and the organization scope among it.
   */
  lemma HeaderExactly(rules: Rules, draft: Draft, c: Draft)
    ensures HeaderNarrows(rules, draft, c) <==> HeaderAllowed(rules, draft, c)
  {
  }

  // ---- What a resource permits

  datatype Permission =
    | Selecting(field: string)
    | Sorting(field: string)
    | Grouping(field: string)
    | Aggregating(field: string)
    | CountingDistinct(field: string)
    | MeasuringPresence(field: string)
    | Filtering(field: string)
    | FilteringBy(field: string, operator: string)
    | Bucketing(field: string)
    | BucketingBy(field: string, bucket: string)
    | NamingFunctions(field: string)
    | UsingFunction(field: string, name: string)
    | NamingValues(field: string)
    | UsingValue(field: string, value: string)
    | Withholding(field: string)

  predicate Within(m: map<string, seq<string>>, field: string, entry: string) {
    field in m && entry in m[field]
  }

  /** One thing the resource lets a question do, or names as its allowlist. */
  predicate Permits(r: Resource, p: Permission) {
    match p
    case Selecting(f) => f in r.selectable
    case Sorting(f) => f in r.sortable
    case Grouping(f) => f in r.groupable
    case Aggregating(f) => f in r.aggregates
    case CountingDistinct(f) => f in r.countDistinct
    case MeasuringPresence(f) => f in r.presence.GetOr([])
    case Filtering(f) => f in r.filterable
    case FilteringBy(f, operator) => Within(r.filterable, f, operator)
    case Bucketing(f) => f in r.timeBuckets
    case BucketingBy(f, bucket) => Within(r.timeBuckets, f, bucket)
    case NamingFunctions(f) => f in r.aggregateFunctions.GetOr(map[])
    case UsingFunction(f, name) => Within(r.aggregateFunctions.GetOr(map[]), f, name)
    case NamingValues(f) => f in r.fieldEnums
    case UsingValue(f, value) => Within(r.fieldEnums, f, value)
    case Withholding(f) => f in r.modelWithheld.GetOr([])
  }

  ghost predicate PermitsNothingNew(o: Resource, r: Resource) {
    forall p | Permits(r, p) :: Permits(o, p)
  }

  ghost predicate NoneRepeats(m: map<string, seq<string>>) {
    forall f | f in m :: NoDuplicates(m[f])
  }

  /** No list names anything twice. */
  ghost predicate Unrepeated(r: Resource) {
    && NoDuplicates(r.selectable) && NoDuplicates(r.sortable) && NoDuplicates(r.groupable)
    && NoDuplicates(r.aggregates) && NoDuplicates(r.countDistinct) && NoDuplicates(r.presence.GetOr([]))
    && NoDuplicates(r.keptOut) && NoDuplicates(r.modelWithheld.GetOr([]))
    && NoneRepeats(r.filterable) && NoneRepeats(r.timeBuckets) && NoneRepeats(r.fieldEnums)
    && NoneRepeats(r.aggregateFunctions.GetOr(map[]))
  }

  /** Keys, scopes, types, sessions, texts and the override marker are the draft's. */
  predicate SameIdentity(o: Resource, r: Resource) {
    r == o.(
      id := r.id, fieldEnums := r.fieldEnums, selectable := r.selectable, filterable := r.filterable,
      sortable := r.sortable, groupable := r.groupable, aggregates := r.aggregates,
      aggregateFunctions := r.aggregateFunctions, presence := r.presence, derivedMeasures := r.derivedMeasures,
      numericBands := r.numericBands, autoBands := r.autoBands, countDistinct := r.countDistinct,
      timeBuckets := r.timeBuckets, keptOut := r.keptOut, modelWithheld := r.modelWithheld,
      relationships := r.relationships, minimumCohort := r.minimumCohort,
      suppressionAwareTotals := r.suppressionAwareTotals)
  }

  /** What is kept out stays kept out, and only fields the draft knows are kept out or withheld. */
  ghost predicate RestrictionsStay(o: Resource, r: Resource) {
    && NoDuplicates(o.keptOut) && (forall f | f in o.keptOut :: f in r.keptOut)
    && (forall f | f in r.keptOut :: f in o.fieldTypes)
    && (forall f | f in r.modelWithheld.GetOr([]) :: f in o.fieldTypes)
  }

  /** Each allowlist goes with the access it belongs to. */
  ghost predicate ListsCohere(o: Resource, r: Resource) {
    && (forall f | Permits(r, NamingFunctions(f)) :: Permits(r, Aggregating(f)))
    && (forall f | Permits(r, MeasuringPresence(f)) :: Permits(r, Selecting(f)) && !Permits(r, Withholding(f)))
    && (forall f | Permits(o, NamingValues(f)) && !Permits(r, NamingValues(f)) ::
          !Permits(r, Filtering(f)) && !Permits(r, Grouping(f)))
  }

  predicate CohortFrom(least: int, cohort: int) {
    1 <= cohort <= 9007199254740991 && least <= cohort
  }

  lemma SubsetIsInclusion(values: seq<string>, allowed: seq<string>)
    ensures Subset(values, allowed) <==> NoDuplicates(values) && forall v | v in values :: v in allowed
  {
    if Subset(values, allowed) {
      forall v | v in values ensures v in allowed {
        var i :| 0 <= i < |values| && values[i] == v;
      }
    }
  }

  lemma SubsetOfKeysIsInclusion(values: seq<string>, allowed: set<string>)
    ensures SubsetOfKeys(values, allowed) <==> NoDuplicates(values) && forall v | v in values :: v in allowed
  {
    if SubsetOfKeys(values, allowed) {
      forall v | v in values ensures v in allowed {
        var i :| 0 <= i < |values| && values[i] == v;
      }
    }
  }

  /** A table of lists narrows exactly when it names no new field and no new entry, and repeats none. */
  lemma TableNarrows(mine: map<string, seq<string>>, drafted: map<string, seq<string>>)
    ensures OperatorsNarrow(mine, drafted) <==>
      && NoneRepeats(mine) && (forall f | f in mine :: f in drafted)
      && (forall f, e | Within(mine, f, e) :: Within(drafted, f, e))
  {
    forall f | f in mine && f in drafted
      ensures Subset(mine[f], drafted[f]) <==>
        NoDuplicates(mine[f]) && forall e | Within(mine, f, e) :: Within(drafted, f, e)
    {
      SubsetIsInclusion(mine[f], drafted[f]);
      if forall e | Within(mine, f, e) :: Within(drafted, f, e) {
        forall e | e in mine[f] ensures e in drafted[f] {
          assert Within(mine, f, e);
        }
      }
    }
  }

  /** Nothing new in one of the plain lists. */
  ghost predicate ListsWithin(o: Resource, r: Resource) {
    && (forall f | f in r.selectable :: f in o.selectable)
    && (forall f | f in r.sortable :: f in o.sortable)
    && (forall f | f in r.groupable :: f in o.groupable)
    && (forall f | f in r.aggregates :: f in o.aggregates)
    && (forall f | f in r.countDistinct :: f in o.countDistinct)
    && (forall f | f in r.presence.GetOr([]) :: f in o.presence.GetOr([]))
    && (forall f | f in r.modelWithheld.GetOr([]) :: f in o.modelWithheld.GetOr([]))
  }

  ghost predicate TableWithin(mine: map<string, seq<string>>, drafted: map<string, seq<string>>) {
    && (forall f | f in mine :: f in drafted)
    && (forall f, e | Within(mine, f, e) :: Within(drafted, f, e))
  }

  ghost predicate TablesWithin(o: Resource, r: Resource) {
    && TableWithin(r.filterable, o.filterable) && TableWithin(r.timeBuckets, o.timeBuckets)
    && TableWithin(r.aggregateFunctions.GetOr(map[]), o.aggregateFunctions.GetOr(map[]))
    && TableWithin(r.fieldEnums, o.fieldEnums)
  }

  lemma NothingNewListed(o: Resource, r: Resource)
    requires PermitsNothingNew(o, r)
    ensures ListsWithin(o, r)
  {
    forall f
      ensures f in r.selectable ==> f in o.selectable
      ensures f in r.sortable ==> f in o.sortable
      ensures f in r.groupable ==> f in o.groupable
      ensures f in r.aggregates ==> f in o.aggregates
      ensures f in r.countDistinct ==> f in o.countDistinct
      ensures f in r.presence.GetOr([]) ==> f in o.presence.GetOr([])
      ensures f in r.modelWithheld.GetOr([]) ==> f in o.modelWithheld.GetOr([])
    {
      assert Permits(r, Selecting(f)) ==> Permits(o, Selecting(f));
      assert Permits(r, Sorting(f)) ==> Permits(o, Sorting(f));
      assert Permits(r, Grouping(f)) ==> Permits(o, Grouping(f));
      assert Permits(r, Aggregating(f)) ==> Permits(o, Aggregating(f));
      assert Permits(r, CountingDistinct(f)) ==> Permits(o, CountingDistinct(f));
      assert Permits(r, MeasuringPresence(f)) ==> Permits(o, MeasuringPresence(f));
      assert Permits(r, Withholding(f)) ==> Permits(o, Withholding(f));
    }
  }

  lemma NothingNewInTables(o: Resource, r: Resource)
    requires PermitsNothingNew(o, r)
    ensures TablesWithin(o, r)
  {
    forall f
      ensures f in r.filterable ==> f in o.filterable
      ensures f in r.timeBuckets ==> f in o.timeBuckets
      ensures f in r.aggregateFunctions.GetOr(map[]) ==> f in o.aggregateFunctions.GetOr(map[])
      ensures f in r.fieldEnums ==> f in o.fieldEnums
    {
      assert Permits(r, Filtering(f)) ==> Permits(o, Filtering(f));
      assert Permits(r, Bucketing(f)) ==> Permits(o, Bucketing(f));
      assert Permits(r, NamingFunctions(f)) ==> Permits(o, NamingFunctions(f));
      assert Permits(r, NamingValues(f)) ==> Permits(o, NamingValues(f));
    }
    forall f, e
      ensures Within(r.filterable, f, e) ==> Within(o.filterable, f, e)
      ensures Within(r.timeBuckets, f, e) ==> Within(o.timeBuckets, f, e)
      ensures Within(r.aggregateFunctions.GetOr(map[]), f, e) ==> Within(o.aggregateFunctions.GetOr(map[]), f, e)
      ensures Within(r.fieldEnums, f, e) ==> Within(o.fieldEnums, f, e)
    {
      assert Permits(r, FilteringBy(f, e)) ==> Permits(o, FilteringBy(f, e));
      assert Permits(r, BucketingBy(f, e)) ==> Permits(o, BucketingBy(f, e));
      assert Permits(r, UsingFunction(f, e)) ==> Permits(o, UsingFunction(f, e));
      assert Permits(r, UsingValue(f, e)) ==> Permits(o, UsingValue(f, e));
    }
  }

  lemma NothingNewMeans(o: Resource, r: Resource)
    ensures PermitsNothingNew(o, r) <==> ListsWithin(o, r) && TablesWithin(o, r)
  {
    if PermitsNothingNew(o, r) {
      NothingNewListed(o, r);
      NothingNewInTables(o, r);
    }
  }

  lemma FieldsNarrowExactly(o: Resource, r: Resource)
    ensures FieldsNarrow(o, r) <==>
      && NoDuplicates(r.selectable) && NoDuplicates(r.sortable) && NoDuplicates(r.groupable)
      && NoDuplicates(r.aggregates) && NoDuplicates(r.countDistinct)
      && NoneRepeats(r.filterable) && NoneRepeats(r.timeBuckets)
      && (forall f | f in r.selectable :: f in o.selectable) && (forall f | f in r.sortable :: f in o.sortable)
      && (forall f | f in r.groupable :: f in o.groupable) && (forall f | f in r.aggregates :: f in o.aggregates)
      && (forall f | f in r.countDistinct :: f in o.countDistinct)
      && TableWithin(r.filterable, o.filterable) && TableWithin(r.timeBuckets, o.timeBuckets)
  {
    SubsetIsInclusion(r.selectable, o.selectable);
    SubsetIsInclusion(r.sortable, o.sortable);
    SubsetIsInclusion(r.groupable, o.groupable);
    SubsetIsInclusion(r.aggregates, o.aggregates);
    SubsetIsInclusion(r.countDistinct, o.countDistinct);
    TableNarrows(r.filterable, o.filterable);
    TableNarrows(r.timeBuckets, o.timeBuckets);
  }

  lemma EnumsNarrowExactly(o: Resource, r: Resource)
    ensures EnumsNarrow(o, r) <==>
      && NoneRepeats(r.fieldEnums) && TableWithin(r.fieldEnums, o.fieldEnums)
      && (forall f | f in o.fieldEnums && f !in r.fieldEnums :: f !in r.filterable && f !in r.groupable)
  {
    TableNarrows(r.fieldEnums, o.fieldEnums);
    assert r.fieldEnums.Keys <= o.fieldEnums.Keys <==> forall f | f in r.fieldEnums :: f in o.fieldEnums;
  }

  lemma FunctionsNarrowExactly(o: Resource, r: Resource)
    ensures
      var mine, drafted := r.aggregateFunctions.GetOr(map[]), o.aggregateFunctions.GetOr(map[]);
      FunctionsNarrow(o, r) <==>
        NoneRepeats(mine) && TableWithin(mine, drafted) && forall f | f in mine :: f in r.aggregates
  {
    TableNarrows(r.aggregateFunctions.GetOr(map[]), o.aggregateFunctions.GetOr(map[]));
  }

  lemma PresenceNarrowsExactly(o: Resource, r: Resource)
    ensures
      var mine := r.presence.GetOr([]);
      PresenceNarrows(o, r) <==>
        && NoDuplicates(mine) && (forall f | f in mine :: f in o.presence.GetOr([]))
        && (forall f | f in mine :: f in r.selectable && f !in r.modelWithheld.GetOr([]))
  {
    var mine := r.presence.GetOr([]);
    SubsetIsInclusion(mine, o.presence.GetOr([]));
    if PresenceNarrows(o, r) {
      forall f | f in mine ensures f in r.selectable && f !in r.modelWithheld.GetOr([]) {
        var i :| 0 <= i < |mine| && mine[i] == f;
      }
    }
  }

  lemma ExposureNarrowsExactly(o: Resource, r: Resource)
    ensures ExposureNarrows(o, r) <==>
      && RestrictionsStay(o, r) && NoDuplicates(r.keptOut) && NoDuplicates(r.modelWithheld.GetOr([]))
      && (forall f | f in r.modelWithheld.GetOr([]) :: f in o.modelWithheld.GetOr([]))
  {
    SubsetIsInclusion(o.keptOut, r.keptOut);
    SubsetOfKeysIsInclusion(r.keptOut, o.fieldTypes.Keys);
    SubsetIsInclusion(r.modelWithheld.GetOr([]), o.modelWithheld.GetOr([]));
    SubsetOfKeysIsInclusion(r.modelWithheld.GetOr([]), o.fieldTypes.Keys);
  }

  lemma IdentityExactly(o: Resource, r: Resource)
    ensures IdentityKept(o, r) && r.cohortOverridden == o.cohortOverridden <==> SameIdentity(o, r)
  {
  }

  lemma ListsCohereExactly(o: Resource, r: Resource)
    ensures ListsCohere(o, r) <==>
      && (forall f | f in r.aggregateFunctions.GetOr(map[]) :: f in r.aggregates)
      && (forall f | f in r.presence.GetOr([]) :: f in r.selectable && f !in r.modelWithheld.GetOr([]))
      && (forall f | f in o.fieldEnums && f !in r.fieldEnums :: f !in r.filterable && f !in r.groupable)
  {
    if ListsCohere(o, r) {
      forall f
        ensures f in r.aggregateFunctions.GetOr(map[]) ==> f in r.aggregates
        ensures f in r.presence.GetOr([]) ==> f in r.selectable && f !in r.modelWithheld.GetOr([])
        ensures f in o.fieldEnums && f !in r.fieldEnums ==> f !in r.filterable && f !in r.groupable
      {
        assert Permits(r, NamingFunctions(f)) ==> Permits(r, Aggregating(f));
        assert Permits(r, MeasuringPresence(f)) ==> Permits(r, Selecting(f)) && !Permits(r, Withholding(f));
        assert Permits(o, NamingValues(f)) && !Permits(r, NamingValues(f)) ==>
          !Permits(r, Filtering(f)) && !Permits(r, Grouping(f));
      }
    }
  }

  /** Nothing of the draft's resource is changed but what may be narrowed, and that is only narrowed. */
  ghost predicate OnlyNarrows(o: Resource, r: Resource) {
    && SameIdentity(o, r) && Unrepeated(r)
    && PermitsNothingNew(o, r) && RestrictionsStay(o, r) && ListsCohere(o, r)
    && CohortFrom(o.minimumCohort, r.minimumCohort) && r.suppressionAwareTotals
  }

  /**
   The comparison with the draft, resource by resource: the same identity, no permission the
   draft does not give, no restriction lifted, a cohort no smaller, totals that know what is
   suppressed, lists that repeat nothing and allowlists that go with their access.
   */
  lemma ComparedExactly(o: Resource, r: Resource)
    ensures ComparedWithDraft(o, r) <==> OnlyNarrows(o, r)
  {
    FieldsNarrowExactly(o, r);
    EnumsNarrowExactly(o, r);
    FunctionsNarrowExactly(o, r);
    PresenceNarrowsExactly(o, r);
    ExposureNarrowsExactly(o, r);
    IdentityExactly(o, r);
    ListsCohereExactly(o, r);
    NothingNewMeans(o, r);
  }

  // ---- Relationships

  /** The draft's relationship of this id, the last one if there are several. */
  ghost predicate DraftedAs(o: Resource, id: string, y: Relationship) {
    exists k: nat :: LastWithId(o.relationships, id, k) && o.relationships[k] == y
  }

  predicate LastWithId(rs: seq<Relationship>, id: string, k: nat) {
    k < |rs| && rs[k].id == id && forall j | k < j < |rs| :: rs[j].id != id
  }

  lemma TableGrows(rs: seq<Relationship>, n: nat)
    requires n < |rs|
    ensures RelationshipsById(rs[..n + 1]) == RelationshipsById(rs[..n])[rs[n].id := rs[n]]
  {
    assert rs[..n + 1][..n] == rs[..n];
  }

  ghost predicate TableHas(m: map<string, Relationship>, id: string, x: Relationship) {
    id in m && m[id] == x
  }

  lemma {:induction false} LastAmongFirst(rs: seq<Relationship>, n: nat, id: string, k: nat)
    requires k < n <= |rs| && rs[k].id == id && forall j | k < j < n :: rs[j].id != id
    ensures TableHas(RelationshipsById(rs[..n]), id, rs[k])
  {
    TableGrows(rs, n - 1);
    if k < n - 1 {
      LastAmongFirst(rs, n - 1, id, k);
    }
  }

  lemma LastIsInTable(rs: seq<Relationship>, id: string, k: nat)
    requires LastWithId(rs, id, k)
    ensures id in RelationshipsById(rs) && RelationshipsById(rs)[id] == rs[k]
  {
    LastAmongFirst(rs, |rs|, id, k);
    assert rs[..|rs|] == rs;
  }

  lemma {:induction false} LastIndex(rs: seq<Relationship>, id: string, n: nat, i: nat) returns (k: nat)
    requires i < n <= |rs| && rs[i].id == id && forall j | n <= j < |rs| :: rs[j].id != id
    ensures LastWithId(rs, id, k)
    decreases n
  {
    if rs[n - 1].id == id {
      k := n - 1;
    } else {
      k := LastIndex(rs, id, n - 1, i);
    }
  }

  lemma TableHasLast(rs: seq<Relationship>, id: string) returns (k: nat)
    requires id in RelationshipsById(rs)
    ensures LastWithId(rs, id, k) && RelationshipsById(rs)[id] == rs[k]
  {
    var i :| 0 <= i < |rs| && rs[i] == RelationshipsById(rs)[id];
    k := LastIndex(rs, id, |rs|, i);
    LastIsInTable(rs, id, k);
  }

  /** Nothing but an open decision about unmatched rows is taken; a decision already taken stays. */
  predicate OnlyDecides(y: Relationship, x: Relationship) {
    && x == y.(unmatchedRows := x.unmatchedRows)
    && if y.unmatchedRows == Some(ReviewRequired) then x.unmatchedRows in {Some(Exclude), Some(KeepNull)}
       else x.unmatchedRows == y.unmatchedRows
  }

  /** Every kept-out column it joins on is the tenant key of its side, in a link of one tenant key to another. */
  predicate KeptOutTiesTenants(l: Link, source: Resource, target: Resource) {
    (exists f | f in l.sourceColumns :: f in source.keptOut) || (exists f | f in l.targetColumns :: f in target.keptOut)
    ==>
      && |l.sourceColumns| == 1 && |l.targetColumns| == 1
      && Some(l.sourceColumns[0]) == source.tenantKey && Some(l.targetColumns[0]) == target.tenantKey
  }

  /** Both ends inside, at most one target row, kept-out columns between tenant keys only. */
  ghost predicate LinkAllowed(l: Link, resources: map<string, Resource>) {
    && l.source in resources && l.target in resources
    && l.cardinality.ManyToOne? && l.maxFanOut == 1 && l.targetColumns == l.uniqueness.columns
    && KeptOutTiesTenants(l, resources[l.source], resources[l.target])
  }

  lemma LinkExactly(l: Link, resources: map<string, Resource>)
    ensures LinkReviewed(l, resources) <==> LinkAllowed(l, resources)
  {
    if l.source in resources && l.target in resources {
      var source, target := resources[l.source], resources[l.target];
      forall f | f in l.sourceColumns && f in source.keptOut ensures UsesKeptOutJoinKey(l, source, target) {
        var i :| 0 <= i < |l.sourceColumns| && l.sourceColumns[i] == f;
      }
      forall f | f in l.targetColumns && f in target.keptOut ensures UsesKeptOutJoinKey(l, source, target) {
        var i :| 0 <= i < |l.targetColumns| && l.targetColumns[i] == f;
      }
    }
  }

  /** The links it goes through; one without a proof goes directly to a key named by its own target columns. */
  ghost predicate GoesThrough(source: string, x: Relationship, links: seq<Link>) {
    if x.proof.Some? then links == x.proof.value.links
    else
      && |links| == 1 && links[0].source == source && links[0].target == x.target
      && links[0].sourceColumns == x.localColumns && links[0].targetColumns == x.targetColumns
      && links[0].uniqueness.columns == x.targetColumns && !links[0].nullable
      && links[0].cardinality.ManyToOne? && links[0].maxFanOut == 1
  }

  ghost predicate RelationshipAllowed(o: Resource, source: string, x: Relationship, resources: map<string, Resource>,
                                      limit: int)
  {
    && (exists y :: DraftedAs(o, x.id, y) && OnlyDecides(y, x))
    && GoesThrough(source, x, ReviewedLinks(source, x))
    && 1 <= |ReviewedLinks(source, x)| <= limit && |ReviewedLinks(source, x)| == x.Depth()
    && forall k | 0 <= k < |ReviewedLinks(source, x)| :: LinkAllowed(ReviewedLinks(source, x)[k], resources)
  }

  /**
   A relationship is accepted exactly if it is a drafted one with at most its open decision
   taken, as deep as it has links, within the hop limit, and all its links are allowed.
   */
  lemma RelationshipExactly(o: Resource, source: string, x: Relationship, resources: map<string, Resource>, limit: int)
    ensures RelationshipNarrows(RelationshipsById(o.relationships), source, x, resources, limit) <==>
      RelationshipAllowed(o, source, x, resources, limit)
  {
    var links := ReviewedLinks(source, x);
    DraftedExactly(o, x);
    forall k | 0 <= k < |links| ensures LinkReviewed(links[k], resources) <==> LinkAllowed(links[k], resources) {
      LinkExactly(links[k], resources);
    }
  }

  lemma DraftedExactly(o: Resource, x: Relationship)
    ensures
      var drafted := RelationshipsById(o.relationships);
      (exists y :: DraftedAs(o, x.id, y) && OnlyDecides(y, x)) <==>
        && x.id in drafted
        && !(drafted[x.id].unmatchedRows == Some(ReviewRequired) && x.unmatchedRows == Some(ReviewRequired))
        && MatchesReviewedDraft(drafted[x.id], x)
  {
    var drafted := RelationshipsById(o.relationships);
    if x.id in drafted {
      var k := TableHasLast(o.relationships, x.id);
      assert DraftedAs(o, x.id, drafted[x.id]);
      MatchesExactly(drafted[x.id], x);
    }
    if exists y :: DraftedAs(o, x.id, y) && OnlyDecides(y, x) {
      var y :| DraftedAs(o, x.id, y) && OnlyDecides(y, x);
      var k: nat :| LastWithId(o.relationships, x.id, k) && o.relationships[k] == y;
      LastIsInTable(o.relationships, x.id, k);
      MatchesExactly(y, x);
    }
  }

  lemma MatchesExactly(y: Relationship, x: Relationship)
    ensures OnlyDecides(y, x) <==>
      && !(y.unmatchedRows == Some(ReviewRequired) && x.unmatchedRows == Some(ReviewRequired))
      && MatchesReviewedDraft(y, x)
  {
    if y.unmatchedRows == Some(ReviewRequired) {
      assert x == y.(unmatchedRows := x.unmatchedRows) <==> x.(unmatchedRows := None) == y.(unmatchedRows := None) by {
        if x.(unmatchedRows := None) == y.(unmatchedRows := None) {
          assert x == x.(unmatchedRows := None).(unmatchedRows := x.unmatchedRows);
        }
      }
    }
  }

  // ---- Budgets and scopes

  /** The hard ceiling of a budget, for those an owner may raise. */
  function HardCeiling(key: string): Option<int> {
    match key
    case "max_rows" => Some(100)
    case "max_groups" => Some(500)
    case "max_ranked_groups" => Some(10000)
    case "max_top_n" => Some(100)
    case "max_measures" => Some(5)
    case "max_dimensions" => Some(4)
    case "max_derived_scope_hops" => Some(3)
    case "max_analysis_relationship_hops" => Some(3)
    case "max_response_cells" => Some(4000)
    case "max_response_bytes" => Some(1048576)
    case "statement_timeout_ms" => Some(30000)
    case "max_queries_per_session" => Some(1000)
    case "rate_limit_per_minute" => Some(120)
    case _ => None
  }

  lemma CeilingsAgree(key: string)
    ensures key in CEILINGS <==> HardCeiling(key).Some?
    ensures key in CEILINGS ==> CEILINGS[key] == HardCeiling(key).value
  {
  }

  predicate Safe(n: int) {
    -9007199254740991 <= n <= 9007199254740991
  }

  /** A budget is positive; it stays at or below its hard ceiling or, without one, the draft's value. */
  predicate BudgetAllowed(draft: Budgets, key: string, value: int) {
    && 1 <= value <= 9007199254740991
    && (key in draft ==> Safe(draft[key]))
    && if HardCeiling(key).Some? then value <= HardCeiling(key).value else key in draft && value <= draft[key]
  }

  function Hops(b: Budgets, key: string): int {
    if key in b then b[key] else b["max_relationship_hops"]
  }

  /** No budget is dropped, each is allowed, and they fit each other: top lists, ranked groups and hops. */
  predicate BudgetsAllowed(draft: Budgets, c: Budgets) {
    && (forall key | key in draft :: key in c)
    && (forall key | key in c :: BudgetAllowed(draft, key, c[key]))
    && c["max_top_n"] <= c["max_groups"]
    && ("max_ranked_groups" in c ==> c["max_groups"] <= c["max_ranked_groups"])
    && Hops(c, "max_derived_scope_hops") <= 3 && Hops(c, "max_analysis_relationship_hops") <= 3
  }

  lemma BudgetsExactly(draft: Budgets, c: Budgets)
    ensures BudgetsNarrow(draft, c) <==> BudgetsAllowed(draft, c)
  {
    forall key | key in c ensures BudgetNarrows(draft, c, key) <==> BudgetAllowed(draft, key, c[key]) {
      CeilingsAgree(key);
    }
    assert draft.Keys <= c.Keys <==> forall key | key in draft :: key in c;
  }

  /** Exactly one way to scope by tenant, none under one organization; at most one by principal. */
  predicate ScopeModes(r: Resource, single: bool) {
    && (if single then r.tenantKey.None? && r.tenantScope.None? && r.sharedReference.None?
        else
          || (r.tenantKey.Some? && r.tenantScope.None? && r.sharedReference.None?)
          || (r.tenantKey.None? && r.tenantScope.Some? && r.sharedReference.None?)
          || (r.tenantKey.None? && r.tenantScope.None? && r.sharedReference.Some?))
    && (r.principalKey.None? || r.principalScope.None?)
  }

  /** A shared table is acknowledged word for word. */
  predicate AcknowledgedShared(r: Resource) {
    r.sharedReference.Some? ==>
      && r.sharedReference.value.mode == "shared_reference"
      && r.sharedReference.value.acknowledgement == "table_has_no_per_tenant_rows"
  }

  ghost predicate ScopeAllowed(r: Resource, resources: map<string, Resource>, single: bool, hops: nat) {
    && ScopeModes(r, single) && AcknowledgedShared(r)
    && (r.tenantScope.Some? ==> ScopeProven(r.id, r.tenantScope.value, resources, Tenant, hops))
    && (r.principalScope.Some? ==> ScopeProven(r.id, r.principalScope.value, resources, Principal, hops))
  }

  lemma ScopeExactly(r: Resource, resources: map<string, Resource>, single: bool, hops: nat)
    ensures ScopeReviewed(r, resources, single, hops) <==> ScopeAllowed(r, resources, single, hops)
  {
  }

  /** Nothing a resource permits is about a field it keeps out. */
  predicate About(p: Permission, f: string) {
    p in {Selecting(f), Sorting(f), Grouping(f), Aggregating(f), CountingDistinct(f), Filtering(f), Bucketing(f),
          Withholding(f)}
  }

  ghost predicate KeepsOut(r: Resource) {
    forall f, p | f in r.keptOut && About(p, f) :: !Permits(r, p)
  }

  lemma KeptOutExactly(r: Resource)
    ensures KeptOutUnavailable(r) <==> KeepsOut(r)
  {
    if KeptOutUnavailable(r) {
      forall f, p | f in r.keptOut && About(p, f) ensures !Permits(r, p) {
        var i :| 0 <= i < |r.keptOut| && r.keptOut[i] == f;
      }
    }
    if KeepsOut(r) {
      forall i | 0 <= i < |r.keptOut| ensures Unlisted(r, r.keptOut[i]) {
        var f := r.keptOut[i];
        assert About(Selecting(f), f) && About(Sorting(f), f) && About(Grouping(f), f) && About(Aggregating(f), f);
        assert About(CountingDistinct(f), f) && About(Filtering(f), f) && About(Bucketing(f), f);
        assert About(Withholding(f), f);
      }
    }
  }

  // ---- The whole candidate

  function AtLeastZero(n: int): nat {
    if n < 0 then 0 else n
  }

  /** One resource of the candidate, next to the draft's and inside the candidate's own boundary and hop limits. */
  ghost predicate ResourceAllowed(rules: Rules, draft: Draft, c: Draft, r: Resource) {
    && r.id in ById(draft.resources)
    && OnlyNarrows(ById(draft.resources)[r.id], r) && KeepsOut(r)
    && ScopeAllowed(r, ById(c.resources), c.organizationScope.Some?,
                    AtLeastZero(Hops(c.budgets, "max_derived_scope_hops")))
    && MeasuresReviewed(rules, c.resources, c.organizationScope.Some?, r)
    && NumericBandsReviewed(rules, c.resources, r) && AutoBandsReviewed(rules, r)
    && forall x | x in r.relationships ::
         RelationshipAllowed(ById(draft.resources)[r.id], r.id, x, ById(c.resources),
                             Hops(c.budgets, "max_analysis_relationship_hops"))
  }

  lemma RelationshipsExactly(o: Resource, r: Resource, resources: map<string, Resource>, limit: int)
    ensures RelationshipsNarrow(o, r, resources, limit) <==>
      forall x | x in r.relationships :: RelationshipAllowed(o, r.id, x, resources, limit)
  {
    forall x ensures RelationshipNarrows(RelationshipsById(o.relationships), r.id, x, resources, limit) <==>
      RelationshipAllowed(o, r.id, x, resources, limit)
    {
      RelationshipExactly(o, r.id, x, resources, limit);
    }
    if RelationshipsNarrow(o, r, resources, limit) {
      forall x | x in r.relationships ensures RelationshipAllowed(o, r.id, x, resources, limit) {
        var k :| 0 <= k < |r.relationships| && r.relationships[k] == x;
      }
    }
    if forall x | x in r.relationships :: RelationshipAllowed(o, r.id, x, resources, limit) {
      forall k | 0 <= k < |r.relationships|
        ensures RelationshipNarrows(RelationshipsById(o.relationships), r.id, r.relationships[k], resources, limit)
      {
        assert r.relationships[k] in r.relationships;
      }
    }
  }

  lemma LimitsAreHops(b: Budgets)
    ensures ScopeHops(b) == AtLeastZero(Hops(b, "max_derived_scope_hops"))
    ensures AnalysisHopLimit(b) == Hops(b, "max_analysis_relationship_hops")
  {
  }

  lemma ResourceExactly(rules: Rules, draft: Draft, c: Draft, r: Resource)
    ensures ResourceNarrows(rules, draft, c, r) <==> ResourceAllowed(rules, draft, c, r)
  {
    if r.id in ById(draft.resources) {
      var o := ById(draft.resources)[r.id];
      LimitsAreHops(c.budgets);
      ComparedExactly(o, r);
      KeptOutExactly(r);
      ScopeExactly(r, ById(c.resources), c.SingleOrganization(), ScopeHops(c.budgets));
      RelationshipsExactly(o, r, ById(c.resources), AnalysisHopLimit(c.budgets));
    }
  }

  /** The validator as a whole: header, budgets, a non-empty choice of drafted resources, each of them allowed. */
  lemma AcceptedExactly(rules: Rules, draft: Draft, c: Draft)
    ensures Narrows(rules, draft, c) <==>
      && HeaderAllowed(rules, draft, c) && BudgetsAllowed(draft.budgets, c.budgets)
      && c.resources != [] && |c.resources| <= |draft.resources| && DistinctIds(c.resources)
      && forall r | r in c.resources :: ResourceAllowed(rules, draft, c, r)
  {
    HeaderExactly(rules, draft, c);
    BudgetsExactly(draft.budgets, c.budgets);
    EachExactly(rules, draft, c);
  }

  lemma EachExactly(rules: Rules, draft: Draft, c: Draft)
    ensures ResourcesNarrow(rules, draft, c, |c.resources|) <==>
      forall r | r in c.resources :: ResourceAllowed(rules, draft, c, r)
  {
    forall r ensures ResourceNarrows(rules, draft, c, r) <==> ResourceAllowed(rules, draft, c, r) {
      ResourceExactly(rules, draft, c, r);
    }
    if ResourcesNarrow(rules, draft, c, |c.resources|) {
      forall r | r in c.resources ensures ResourceAllowed(rules, draft, c, r) {
        var i :| 0 <= i < |c.resources| && c.resources[i] == r;
      }
    }
    if forall r | r in c.resources :: ResourceAllowed(rules, draft, c, r) {
      forall i | 0 <= i < |c.resources| ensures ResourceNarrows(rules, draft, c, c.resources[i]) {
        assert c.resources[i] in c.resources;
      }
    }
  }

  // ---- Suppression along a chain of reviews

  /** A group of this many rows is not shown. */
  predicate Suppressed(r: Resource, rows: int) {
    rows < r.minimumCohort
  }

  /** Each draft is accepted against the one before it. */
  ghost predicate ReviewChain(rules: Rules, drafts: seq<Draft>) {
    drafts != [] && forall k | 0 <= k < |drafts| - 1 :: Narrows(rules, drafts[k], drafts[k + 1])
  }

  lemma {:induction false} ChainAccepted(rules: Rules, drafts: seq<Draft>, n: nat)
    requires ReviewChain(rules, drafts) && 0 < n < |drafts|
    ensures Narrows(rules, drafts[0], drafts[n])
  {
    assert Narrows(rules, drafts[n - 1], drafts[n - 1 + 1]);
    if n > 1 {
      ChainAccepted(rules, drafts, n - 1);
      NarrowingComposes(rules, drafts[0], drafts[n - 1], drafts[n]);
    }
  }

  lemma AcceptedCompared(rules: Rules, draft: Draft, c: Draft, r: Resource)
    requires Narrows(rules, draft, c) && r in c.resources
    ensures r.id in ById(draft.resources) && ComparedWithDraft(ById(draft.resources)[r.id], r)
  {
    AcceptedResource(rules, draft, c, r);
  }

  /**
   However many reviews follow one another, in the end the header is the first draft's, each
   resource permits only what it permitted there, and a group the first draft suppressed stays
   suppressed, with totals that know of it.
   */
  lemma ChainKeeps(rules: Rules, drafts: seq<Draft>, n: nat, r: Resource, rows: int)
    requires ReviewChain(rules, drafts) && 0 < n < |drafts| && r in drafts[n].resources
    ensures SameHeader(drafts[0], drafts[n]) && ProfileMayBecome(drafts[0].profile, drafts[n].profile)
    ensures r.id in ById(drafts[0].resources)
    ensures PermitsNothingNew(ById(drafts[0].resources)[r.id], r)
    ensures RestrictionsStay(ById(drafts[0].resources)[r.id], r)
    ensures Suppressed(ById(drafts[0].resources)[r.id], rows) ==> Suppressed(r, rows)
    ensures r.suppressionAwareTotals
  {
    ChainAccepted(rules, drafts, n);
    HeaderExactly(rules, drafts[0], drafts[n]);
    AcceptedCompared(rules, drafts[0], drafts[n], r);
    ComparedExactly(ById(drafts[0].resources)[r.id], r);
  }

  // ---- Replacing a cohort

  function WithCohort(c: Draft, i: nat, cohort: int): Draft
    requires i < |c.resources|
  {
    c.(resources := c.resources[i := c.resources[i].(minimumCohort := cohort)])
  }

  lemma CohortTable(c: Draft, i: nat, cohort: int)
    requires DistinctIds(c.resources) && i < |c.resources|
    ensures
      var d, id := WithCohort(c, i, cohort), c.resources[i].id;
      && DistinctIds(d.resources) && id in ById(c.resources) && ById(c.resources)[id] == c.resources[i]
      && ById(d.resources) == ById(c.resources)[id := c.resources[i].(minimumCohort := cohort)]
  {
    TableWith(c.resources, i, c.resources[i].(minimumCohort := cohort));
  }

  /** Only cohorts differ. */
  ghost predicate SameButCohort(a: map<string, Resource>, b: map<string, Resource>) {
    a.Keys == b.Keys && forall id | id in a :: a[id] == b[id].(minimumCohort := a[id].minimumCohort)
  }

  lemma SameButCohortColumns(a: map<string, Resource>, b: map<string, Resource>)
    requires SameButCohort(a, b)
    ensures SameScopeColumns(a, b)
    ensures forall id | id in a :: a[id].keptOut == b[id].keptOut
  {
    forall id | id in a
      ensures a[id].tenantKey == b[id].tenantKey && a[id].principalKey == b[id].principalKey
      ensures a[id].keptOut == b[id].keptOut
    {
      assert a[id] == b[id].(minimumCohort := a[id].minimumCohort);
    }
  }

  lemma CohortSelfConsistent(rules: Rules, c: Draft, d: Draft, j: nat)
    requires |d.resources| == |c.resources| && j < |c.resources| && SameBare(c.resources, d.resources)
    requires d.budgets == c.budgets && d.organizationScope == c.organizationScope
    requires SameButCohort(ById(c.resources), ById(d.resources))
    requires c.resources[j] == d.resources[j].(minimumCohort := c.resources[j].minimumCohort)
    requires SelfConsistent(rules, c, c.resources[j])
    ensures SelfConsistent(rules, d, d.resources[j])
  {
    var p, q := c.resources[j], d.resources[j];
    SameButCohortColumns(ById(c.resources), ById(d.resources));
    ScopeReviewedSame(p, q, ById(c.resources), ById(d.resources), c.SingleOrganization(), ScopeHops(c.budgets));
    DefinitionsSame(rules, c.resources, d.resources, c.SingleOrganization(), p, q);
    AutoBandsSame(rules, p, q);
  }

  lemma AutoBandsSame(rules: Rules, p: Resource, q: Resource)
    requires p == q.(minimumCohort := p.minimumCohort)
    ensures AutoBandsReviewed(rules, p) == AutoBandsReviewed(rules, q)
    ensures KeptOutUnavailable(p) == KeptOutUnavailable(q)
  {
    forall d ensures AutoBandReviewed(rules, p, d) == AutoBandReviewed(rules, q, d) {
    }
  }

  lemma CohortRelationships(o: Resource, p: Resource, q: Resource, a: map<string, Resource>, b: map<string, Resource>,
                            limit: int)
    requires p == q.(minimumCohort := p.minimumCohort) && SameButCohort(a, b) && RelationshipsNarrow(o, p, a, limit)
    ensures RelationshipsNarrow(o, q, b, limit)
  {
    SameButCohortColumns(a, b);
    var drafted := RelationshipsById(o.relationships);
    forall k | 0 <= k < |q.relationships|
      ensures RelationshipNarrows(drafted, q.id, q.relationships[k], b, limit)
    {
      assert RelationshipNarrows(drafted, p.id, p.relationships[k], a, limit);
      forall l | LinkReviewed(l, a) ensures LinkReviewed(l, b) {
      }
    }
  }

  lemma CohortPermits(o: Resource, r: Resource, q: Resource)
    requires q == r.(minimumCohort := q.minimumCohort)
    ensures PermitsNothingNew(o, q) == PermitsNothingNew(o, r)
    ensures ListsCohere(o, q) == ListsCohere(o, r)
  {
    forall p ensures Permits(q, p) <==> Permits(r, p) {
    }
  }

  lemma CohortCompared(o: Resource, r: Resource, cohort: int)
    requires ComparedWithDraft(o, r)
    ensures ComparedWithDraft(o, r.(minimumCohort := cohort)) <==> CohortFrom(o.minimumCohort, cohort)
  {
    ComparedExactly(o, r);
    ComparedExactly(o, r.(minimumCohort := cohort));
    CohortPermits(o, r, r.(minimumCohort := cohort));
  }

  /** The candidate differs from the other in cohorts only. */
  ghost predicate OnlyCohorts(c: Draft, d: Draft) {
    && d == c.(resources := d.resources) && |d.resources| == |c.resources|
    && SameBare(c.resources, d.resources) && SameButCohort(ById(c.resources), ById(d.resources))
    && forall j | 0 <= j < |c.resources| ::
         c.resources[j] == d.resources[j].(minimumCohort := c.resources[j].minimumCohort)
  }

  lemma OneCohort(r: Resource, cohort: int)
    ensures Bare(r) == Bare(r.(minimumCohort := cohort))
    ensures r == r.(minimumCohort := cohort).(minimumCohort := r.minimumCohort)
  {
  }

  lemma OneCohortInTable(a: map<string, Resource>, id: string, cohort: int)
    requires id in a
    ensures SameButCohort(a, a[id := a[id].(minimumCohort := cohort)])
  {
    OneCohort(a[id], cohort);
  }

  lemma OneCohortInList(rs: seq<Resource>, i: nat, cohort: int)
    requires i < |rs|
    ensures
      var now := rs[i := rs[i].(minimumCohort := cohort)];
      && SameBare(rs, now)
      && forall j | 0 <= j < |rs| :: rs[j] == now[j].(minimumCohort := rs[j].minimumCohort)
  {
    OneCohort(rs[i], cohort);
  }

  lemma CohortOnly(c: Draft, i: nat, cohort: int)
    requires DistinctIds(c.resources) && i < |c.resources|
    ensures OnlyCohorts(c, WithCohort(c, i, cohort)) && DistinctIds(WithCohort(c, i, cohort).resources)
  {
    CohortTable(c, i, cohort);
    OneCohortInTable(ById(c.resources), c.resources[i].id, cohort);
    OneCohortInList(c.resources, i, cohort);
  }

  lemma CohortRest(rules: Rules, draft: Draft, c: Draft, d: Draft, j: nat)
    requires Narrows(rules, draft, c) && OnlyCohorts(c, d) && j < |c.resources|
    ensures d.resources[j].id == c.resources[j].id && c.resources[j].id in ById(draft.resources)
    ensures ResourceNarrows(rules, draft, d, d.resources[j]) <==>
      ComparedWithDraft(ById(draft.resources)[c.resources[j].id], d.resources[j])
  {
    var p, q := c.resources[j], d.resources[j];
    AcceptedResource(rules, draft, c, p);
    assert p.id == q.(minimumCohort := p.minimumCohort).id == q.id;
    var o := ById(draft.resources)[p.id];
    CohortSelfConsistent(rules, c, d, j);
    CohortRelationships(o, p, q, ById(c.resources), ById(d.resources), AnalysisHopLimit(c.budgets));
  }

  lemma CohortResource(rules: Rules, draft: Draft, c: Draft, i: nat, cohort: int, j: nat)
    requires Narrows(rules, draft, c) && i < |c.resources| && j < |c.resources|
    ensures c.resources[j].id in ById(draft.resources)
    ensures ResourceNarrows(rules, draft, WithCohort(c, i, cohort), WithCohort(c, i, cohort).resources[j]) <==>
      (i == j ==> CohortFrom(ById(draft.resources)[c.resources[j].id].minimumCohort, cohort))
  {
    CohortOnly(c, i, cohort);
    CohortRest(rules, draft, c, WithCohort(c, i, cohort), j);
    AcceptedCompared(rules, draft, c, c.resources[j]);
    CohortCompared(ById(draft.resources)[c.resources[j].id], c.resources[j], cohort);
  }

  /**
   Replacing the cohort of one resource leaves an accepted candidate accepted if and only if the
   new one is a safe integer of at least one and at least the draft's.
   */
  lemma CohortReachesExactly(rules: Rules, draft: Draft, c: Draft, i: nat, cohort: int)
    requires Narrows(rules, draft, c) && i < |c.resources|
    ensures c.resources[i].id in ById(draft.resources)
    ensures Narrows(rules, draft, WithCohort(c, i, cohort)) <==>
      CohortFrom(ById(draft.resources)[c.resources[i].id].minimumCohort, cohort)
  {
    var d := WithCohort(c, i, cohort);
    CohortTable(c, i, cohort);
    AcceptedCompared(rules, draft, c, c.resources[i]);
    CohortEach(rules, draft, c, i, cohort);
    assert HeaderNarrows(rules, draft, d) == HeaderNarrows(rules, draft, c);
  }

  lemma CohortEach(rules: Rules, draft: Draft, c: Draft, i: nat, cohort: int)
    requires Narrows(rules, draft, c) && i < |c.resources| && c.resources[i].id in ById(draft.resources)
    ensures
      var d := WithCohort(c, i, cohort);
      ResourcesNarrow(rules, draft, d, |d.resources|) <==>
        CohortFrom(ById(draft.resources)[c.resources[i].id].minimumCohort, cohort)
  {
    var d := WithCohort(c, i, cohort);
    if CohortFrom(ById(draft.resources)[c.resources[i].id].minimumCohort, cohort) {
      forall j | 0 <= j < |d.resources| ensures ResourceNarrows(rules, draft, d, d.resources[j]) {
        CohortResource(rules, draft, c, i, cohort, j);
      }
    } else {
      CohortResource(rules, draft, c, i, cohort, i);
      OneFailureSuffices(rules, draft, d, i);
    }
  }
}
