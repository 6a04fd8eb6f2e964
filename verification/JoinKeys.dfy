/**
 The columns a child-count measure joins on. Its link comes from a relationship of the child or
 from one of the child's derived scopes. A relationship is checked for kept-out columns, a scope
 is not: so a count joins on a kept-out column that is no tenant key exactly where no reviewed
 relationship uses that column.
 */
module JoinKeys {
  import opened Catalog
  import opened Evidence
  import opened Pack
  import opened Boundary
  import opened ScopeProof
  import opened ScopeSearch
  import opened ChildCount
  import opened DependentAuthority
  import opened Narrowing
  import opened Review

  /** A child count that `user` defines counts rows of `child` over this link. */
  ghost predicate Counts(c: Draft, user: Resource, d: DerivedMeasure, child: Resource, l: Link) {
    && d in user.derivedMeasures.GetOr([]) && d.ChildCount?
    && Accepts(user.id, d.childResource, d.relationship, c.resources, c.SingleOrganization(), child, l)
  }

  // ---- Where the link comes from

  predicate RelationshipCarries(child: Resource, id: string) {
    exists k | 0 <= k < |child.relationships| :: DirectProof(child.relationships[k], id)
  }

  lemma AgreedProof(proofs: seq<LinkProof>, id: string, child: string, root: string, l: Link, p: LinkProof)
    requires OneAgreedLink(proofs, id, child, root, l) && p in proofs
    ensures p.links == [l]
  {
    var i :| 0 <= i < |proofs| && proofs[i] == p;
  }

  /** A count carried by a relationship of the child joins on kept-out columns between tenant keys only. */
  lemma RelationshipCountJoinsTenantKeys(rules: Rules, draft: Draft, c: Draft, user: Resource, d: DerivedMeasure,
                                         child: Resource, l: Link, field: string)
    requires Narrows(rules, draft, c) && Counts(c, user, d, child, l) && RelationshipCarries(child, d.relationship)
    ensures LinkReviewed(l, ById(c.resources))
    ensures JoinsOn(l, ById(c.resources), field) ==>
      TrustedTenantLink(l, ById(c.resources)[l.source], ById(c.resources)[l.target])
  {
    var k :| 0 <= k < |child.relationships| && DirectProof(child.relationships[k], d.relationship);
    var r := child.relationships[k];
    RelationshipProofsMembers(child.relationships, d.relationship);
    assert r in child.relationships && r.proof.value in ChildProofs(child, d.relationship);
    AgreedProof(ChildProofs(child, d.relationship), d.relationship, child.id, user.id, l, r.proof.value);
    AcceptedLink(rules, draft, c, child, r, 0);
    if JoinsOn(l, ById(c.resources), field) {
      KeptOutKeyIsUsed(l, ById(c.resources), field);
    }
  }

  /** The proof a reviewed relationship carries is the one the draft recorded under its id. */
  lemma DirectProofDrafted(o: Resource, r: Resource, resources: map<string, Resource>, limit: int, x: Relationship,
                           id: string)
    requires RelationshipsNarrow(o, r, resources, limit) && x in r.relationships && DirectProof(x, id)
    ensures x.proof.value in ChildProofs(o, id)
  {
    var k :| 0 <= k < |r.relationships| && r.relationships[k] == x;
    var drafted := RelationshipsById(o.relationships);
    assert RelationshipNarrows(drafted, r.id, r.relationships[k], resources, limit);
    var y := drafted[x.id];
    assert y in o.relationships && y.(unmatchedRows := None) == x.(unmatchedRows := None);
    assert y.proof == y.(unmatchedRows := None).proof && y.pathDepth == y.(unmatchedRows := None).pathDepth;
    assert x.proof == x.(unmatchedRows := None).proof && x.pathDepth == x.(unmatchedRows := None).pathDepth;
    assert DirectProof(y, id);
    RelationshipProofsMembers(o.relationships, id);
  }

  /** Whatever link an accepted count uses, the draft recorded it for that child. */
  lemma CountedLinkDrafted(rules: Rules, draft: Draft, c: Draft, user: Resource, d: DerivedMeasure, child: Resource,
                           l: Link)
    requires Narrows(rules, draft, c) && Counts(c, user, d, child, l)
    ensures child.id in ById(draft.resources)
    ensures exists p | p in ChildProofs(ById(draft.resources)[child.id], d.relationship) :: p.links == [l]
  {
    var o := DraftedResource(rules, draft, c, child);
    var proofs := ChildProofs(child, d.relationship);
    var p := proofs[0];
    AgreedProof(proofs, d.relationship, child.id, user.id, l, p);
    RelationshipProofsMembers(child.relationships, d.relationship);
    if p in RelationshipProofs(child.relationships, d.relationship) {
      var x :| x in child.relationships && DirectProof(x, d.relationship) && x.proof.value == p;
      DirectProofDrafted(o, child, ById(c.resources), AnalysisHopLimit(c.budgets), x, d.relationship);
    } else {
      assert o.tenantScope == child.tenantScope && o.principalScope == child.principalScope;
      assert p in ChildProofs(o, d.relationship);
    }
  }

  // ---- Keeping one more column out

  /** No list of the resource gives the field to an operation. */
  predicate Unlisted(r: Resource, field: string) {
    && field !in r.modelWithheld.GetOr([])
    && field !in r.selectable && field !in r.filterable && field !in r.sortable && field !in r.groupable
    && field !in r.aggregates && field !in r.countDistinct && field !in r.timeBuckets
  }

  predicate Touches(l: Link, id: string, field: string) {
    (l.source == id && field in l.sourceColumns) || (l.target == id && field in l.targetColumns)
  }

  ghost predicate TiesTenantKeys(l: Link, resources: map<string, Resource>) {
    l.source in resources && l.target in resources && TrustedTenantLink(l, resources[l.source], resources[l.target])
  }

  ghost predicate LinksTieTenantKeys(resources: map<string, Resource>, source: string, x: Relationship, id: string,
                                     field: string)
  {
    forall k | 0 <= k < |ReviewedLinks(source, x)| ::
      Touches(ReviewedLinks(source, x)[k], id, field) ==> TiesTenantKeys(ReviewedLinks(source, x)[k], resources)
  }

  ghost predicate RelationshipsTieTenantKeys(r: Resource, table: map<string, Resource>, id: string, field: string) {
    forall k | 0 <= k < |r.relationships| :: LinksTieTenantKeys(table, r.id, r.relationships[k], id, field)
  }

  /** Reviewed relationships use the column only to tie tenant keys. */
  ghost predicate UsedForTenantsOnly(c: Draft, id: string, field: string) {
    forall j | 0 <= j < |c.resources| :: RelationshipsTieTenantKeys(c.resources[j], ById(c.resources), id, field)
  }

  function KeptOutToo(r: Resource, field: string): Resource {
    r.(keptOut := r.keptOut + [field])
  }

  function KeepingOut(c: Draft, i: nat, field: string): Draft
    requires i < |c.resources|
  {
    c.(resources := c.resources[i := KeptOutToo(c.resources[i], field)])
  }

  lemma TableEntry(resources: seq<Resource>, i: nat, r: Resource, j: nat)
    requires DistinctIds(resources) && i < |resources| && r.id == resources[i].id && j < |resources|
    ensures
      var id := resources[j].id;
      && id in ById(resources) && id in ById(resources[i := r])
      && ById(resources[i := r])[id] == ById(resources)[r.id := r][id]
  {
    var now := resources[i := r];
    assert DistinctIds(now);
    ByIdFinds(resources, j);
    ByIdFinds(now, j);
  }

  lemma TableAt(resources: seq<Resource>, i: nat, r: Resource, id: string)
    requires DistinctIds(resources) && i < |resources| && r.id == resources[i].id
    ensures id in ById(resources[i := r]) <==> id in ById(resources)
    ensures id in ById(resources) ==> ById(resources[i := r])[id] == ById(resources)[r.id := r][id]
  {
    var now := resources[i := r];
    if id in ById(resources) {
      var j :| 0 <= j < |resources| && resources[j] == ById(resources)[id];
      TableEntry(resources, i, r, j);
    }
    if id in ById(now) {
      var j :| 0 <= j < |now| && now[j] == ById(now)[id];
      TableEntry(resources, i, r, j);
    }
  }

  lemma TableWith(resources: seq<Resource>, i: nat, r: Resource)
    requires DistinctIds(resources) && i < |resources| && r.id == resources[i].id
    ensures DistinctIds(resources[i := r]) && r.id in ById(resources) && ById(resources)[r.id] == resources[i]
    ensures ById(resources[i := r]) == ById(resources)[r.id := r]
  {
    ByIdFinds(resources, i);
    var a, b := ById(resources[i := r]), ById(resources)[r.id := r];
    forall id ensures (id in a <==> id in b) && (id in a ==> a[id] == b[id]) {
      TableAt(resources, i, r, id);
    }
    SameTables(a, b);
  }

  lemma SameTables(a: map<string, Resource>, b: map<string, Resource>)
    requires forall id :: (id in a <==> id in b) && (id in a ==> a[id] == b[id])
    ensures a == b
  {
  }

  /** Everything but the kept-out lists is as before. */
  ghost predicate SameButKeptOut(a: map<string, Resource>, b: map<string, Resource>) {
    a.Keys == b.Keys && forall id | id in a :: a[id] == b[id].(keptOut := a[id].keptOut)
  }

  /** The same resources with the same scope columns. */
  ghost predicate SameScopeColumns(a: map<string, Resource>, b: map<string, Resource>) {
    a.Keys == b.Keys
    && forall id | id in a :: a[id].tenantKey == b[id].tenantKey && a[id].principalKey == b[id].principalKey
  }

  lemma ScopeProvenSame(root: string, scope: ScopePath, a: map<string, Resource>, b: map<string, Resource>,
                        kind: ScopeKind, hops: nat)
    requires SameScopeColumns(a, b) && ScopeProven(root, scope, a, kind, hops)
    ensures ScopeProven(root, scope, b, kind, hops)
  {
    var links := scope.proof.links;
    forall i | 0 <= i < |links| ensures LinkInside(root, links, i, b) {
      assert LinkInside(root, links, i, a);
    }
  }

  lemma ScopeReviewedSame(p: Resource, q: Resource, a: map<string, Resource>, b: map<string, Resource>, single: bool,
                          hops: nat)
    requires SameScopeColumns(a, b) && ScopeReviewed(p, a, single, hops)
    requires p == q.(keptOut := p.keptOut, minimumCohort := p.minimumCohort)
    ensures ScopeReviewed(q, b, single, hops)
  {
    if p.tenantScope.Some? {
      ScopeProvenSame(p.id, p.tenantScope.value, a, b, Tenant, hops);
    }
    if p.principalScope.Some? {
      ScopeProvenSame(p.id, p.principalScope.value, a, b, Principal, hops);
    }
  }

  lemma DefinitionsSame(rules: Rules, a: seq<Resource>, b: seq<Resource>, single: bool, p: Resource, q: Resource)
    requires SameBare(a, b) && p == q.(keptOut := p.keptOut, minimumCohort := p.minimumCohort)
    ensures MeasuresReviewed(rules, a, single, p) == MeasuresReviewed(rules, b, single, q)
    ensures NumericBandsReviewed(rules, a, p) == NumericBandsReviewed(rules, b, q)
  {
    assert Bare(p) == Bare(q);
    MeasuresBlind(rules, a, b, single, p, q);
    NumericBandsBlind(rules, a, b, p, q);
  }

  lemma AutoBandsStay(rules: Rules, r: Resource, field: string)
    requires field !in r.aggregates
    ensures AutoBandsReviewed(rules, KeptOutToo(r, field)) == AutoBandsReviewed(rules, r)
  {
    forall d ensures AutoBandReviewed(rules, KeptOutToo(r, field), d) == AutoBandReviewed(rules, r, d) {
    }
  }

  lemma ComparedStays(o: Resource, r: Resource, field: string)
    requires ComparedWithDraft(o, r) && field !in r.keptOut && field in o.fieldTypes
    ensures ComparedWithDraft(o, KeptOutToo(r, field))
  {
    var now := KeptOutToo(r, field);
    forall i, j | 0 <= i < j < |now.keptOut| ensures now.keptOut[i] != now.keptOut[j] {
      assert r.keptOut[i] in r.keptOut;
    }
    assert ExposureNarrows(o, now);
  }

  /** A reviewed link stays reviewed exactly when it does not touch the column, or ties tenant keys. */
  lemma LinkStays(l: Link, table: map<string, Resource>, id: string, field: string)
    requires id in table && LinkReviewed(l, table)
    ensures LinkReviewed(l, table[id := KeptOutToo(table[id], field)]) <==>
      (Touches(l, id, field) ==> TiesTenantKeys(l, table))
  {
    var now := table[id := KeptOutToo(table[id], field)];
    KeyUseGrows(l, table, id, field);
    assert TrustedTenantLink(l, now[l.source], now[l.target]) == TrustedTenantLink(l, table[l.source], table[l.target]);
  }

  lemma KeyUseGrows(l: Link, table: map<string, Resource>, id: string, field: string)
    requires id in table && l.source in table && l.target in table
    ensures
      var now := table[id := KeptOutToo(table[id], field)];
      UsesKeptOutJoinKey(l, now[l.source], now[l.target]) <==>
        UsesKeptOutJoinKey(l, table[l.source], table[l.target]) || Touches(l, id, field)
  {
    var now := table[id := KeptOutToo(table[id], field)];
    ColumnsKeptOut(l.sourceColumns, table[l.source], now[l.source], l.source == id, field);
    ColumnsKeptOut(l.targetColumns, table[l.target], now[l.target], l.target == id, field);
  }

  lemma ColumnsKeptOut(columns: seq<string>, was: Resource, now: Resource, changed: bool, field: string)
    requires now == if changed then KeptOutToo(was, field) else was
    ensures (exists i | 0 <= i < |columns| :: columns[i] in now.keptOut) <==>
      (exists i | 0 <= i < |columns| :: columns[i] in was.keptOut) || (changed && field in columns)
  {
    if changed && field in columns {
      var i :| 0 <= i < |columns| && columns[i] == field;
      assert columns[i] in now.keptOut;
    }
  }

  lemma RelationshipStays(drafted: map<string, Relationship>, source: string, x: Relationship,
                          table: map<string, Resource>, limit: int, id: string, field: string)
    requires id in table && RelationshipNarrows(drafted, source, x, table, limit)
    ensures RelationshipNarrows(drafted, source, x, table[id := KeptOutToo(table[id], field)], limit) <==>
      LinksTieTenantKeys(table, source, x, id, field)
  {
    var links := ReviewedLinks(source, x);
    forall k | 0 <= k < |links|
      ensures LinkReviewed(links[k], table[id := KeptOutToo(table[id], field)]) <==>
        (Touches(links[k], id, field) ==> TiesTenantKeys(links[k], table))
    {
      LinkStays(links[k], table, id, field);
    }
  }

  lemma RelationshipsStay(o: Resource, r: Resource, now: Resource, table: map<string, Resource>, limit: int, id: string,
                          field: string)
    requires id in table && RelationshipsNarrow(o, r, table, limit) && now == r.(keptOut := now.keptOut)
    ensures RelationshipsNarrow(o, now, table[id := KeptOutToo(table[id], field)], limit) <==>
      RelationshipsTieTenantKeys(r, table, id, field)
  {
    var drafted := RelationshipsById(o.relationships);
    forall k | 0 <= k < |r.relationships|
      ensures RelationshipNarrows(drafted, r.id, r.relationships[k], table[id := KeptOutToo(table[id], field)], limit)
        <==> LinksTieTenantKeys(table, r.id, r.relationships[k], id, field)
    {
      assert RelationshipNarrows(drafted, r.id, r.relationships[k], table, limit);
      RelationshipStays(drafted, r.id, r.relationships[k], table, limit, id, field);
    }
  }

  /** The field exists, is not kept out yet, and no list of resource i holds it. */
  ghost predicate CanKeepOut(draft: Draft, c: Draft, i: nat, field: string)
    requires i < |c.resources|
  {
    && Unlisted(c.resources[i], field) && field !in c.resources[i].keptOut
    && c.resources[i].id in ById(draft.resources)
    && field in ById(draft.resources)[c.resources[i].id].fieldTypes
  }

  lemma TableKeepingOut(c: Draft, i: nat, field: string)
    requires DistinctIds(c.resources) && i < |c.resources|
    ensures
      var id, d := c.resources[i].id, KeepingOut(c, i, field);
      && id in ById(c.resources) && ById(c.resources)[id] == c.resources[i] && DistinctIds(d.resources)
      && ById(d.resources) == ById(c.resources)[id := KeptOutToo(ById(c.resources)[id], field)]
  {
    TableWith(c.resources, i, KeptOutToo(c.resources[i], field));
  }

  lemma OnlyKeptOutChanges(table: map<string, Resource>, id: string, field: string)
    requires id in table
    ensures SameButKeptOut(table, table[id := KeptOutToo(table[id], field)])
  {
  }

  lemma ScopeStays(c: Draft, i: nat, field: string, j: nat, hops: nat)
    requires DistinctIds(c.resources) && i < |c.resources| && j < |c.resources|
    requires ScopeReviewed(c.resources[j], ById(c.resources), c.SingleOrganization(), hops)
    ensures
      var d := KeepingOut(c, i, field);
      ScopeReviewed(d.resources[j], ById(d.resources), c.SingleOrganization(), hops)
  {
    var d := KeepingOut(c, i, field);
    TableKeepingOut(c, i, field);
    OnlyKeptOutChanges(ById(c.resources), c.resources[i].id, field);
    ScopeReviewedSame(c.resources[j], d.resources[j], ById(c.resources), ById(d.resources), c.SingleOrganization(),
      hops);
  }

  lemma DefinitionsStay(rules: Rules, c: Draft, i: nat, field: string, j: nat)
    requires i < |c.resources| && j < |c.resources| && Unlisted(c.resources[i], field)
    ensures
      var d := KeepingOut(c, i, field);
      && MeasuresReviewed(rules, d.resources, c.SingleOrganization(), d.resources[j])
         == MeasuresReviewed(rules, c.resources, c.SingleOrganization(), c.resources[j])
      && NumericBandsReviewed(rules, d.resources, d.resources[j])
        == NumericBandsReviewed(rules, c.resources, c.resources[j])
      && AutoBandsReviewed(rules, d.resources[j]) == AutoBandsReviewed(rules, c.resources[j])
  {
    var d := KeepingOut(c, i, field);
    assert SameBare(c.resources, d.resources);
    DefinitionsSame(rules, c.resources, d.resources, c.SingleOrganization(), c.resources[j], d.resources[j]);
    AutoBandsStay(rules, c.resources[i], field);
  }

  lemma SelfConsistentStays(rules: Rules, c: Draft, i: nat, field: string, j: nat)
    requires DistinctIds(c.resources) && i < |c.resources| && j < |c.resources| && Unlisted(c.resources[i], field)
    requires SelfConsistent(rules, c, c.resources[j])
    ensures SelfConsistent(rules, KeepingOut(c, i, field), KeepingOut(c, i, field).resources[j])
  {
    ScopeStays(c, i, field, j, ScopeHops(c.budgets));
    DefinitionsStay(rules, c, i, field, j);
  }

  lemma ResourceStays(rules: Rules, draft: Draft, c: Draft, i: nat, field: string, j: nat)
    requires DistinctIds(c.resources) && i < |c.resources| && j < |c.resources| && CanKeepOut(draft, c, i, field)
    requires ResourceNarrows(rules, draft, c, c.resources[j])
    ensures ResourceNarrows(rules, draft, KeepingOut(c, i, field), KeepingOut(c, i, field).resources[j]) <==>
      RelationshipsTieTenantKeys(c.resources[j], ById(c.resources), c.resources[i].id, field)
  {
    var r, now := c.resources[j], KeepingOut(c, i, field).resources[j];
    var o := ById(draft.resources)[r.id];
    SelfConsistentStays(rules, c, i, field, j);
    if j == i {
      ComparedStays(o, r, field);
    }
    TableKeepingOut(c, i, field);
    RelationshipsStay(o, r, now, ById(c.resources), AnalysisHopLimit(c.budgets), c.resources[i].id, field);
  }

  /**
   Keeping out one more column that no list of its resource holds leaves a candidate accepted
   if and only if reviewed relationships use the column to tie tenant keys only. What child
   counts and scope paths join on plays no part.
   */
  lemma KeepingOutAcceptedExactly(rules: Rules, draft: Draft, c: Draft, i: nat, field: string)
    requires Narrows(rules, draft, c) && i < |c.resources| && CanKeepOut(draft, c, i, field)
    ensures Narrows(rules, draft, KeepingOut(c, i, field)) <==> UsedForTenantsOnly(c, c.resources[i].id, field)
  {
    var d := KeepingOut(c, i, field);
    TableKeepingOut(c, i, field);
    forall j | 0 <= j < |c.resources|
      ensures ResourceNarrows(rules, draft, d, d.resources[j]) <==>
        RelationshipsTieTenantKeys(c.resources[j], ById(c.resources), c.resources[i].id, field)
    {
      AcceptedResource(rules, draft, c, c.resources[j]);
      ResourceStays(rules, draft, c, i, field, j);
    }
    EachNarrowsExactly(rules, draft, c, d, c.resources[i].id, field);
  }

  lemma EachNarrowsExactly(rules: Rules, draft: Draft, c: Draft, d: Draft, id: string, field: string)
    requires |d.resources| == |c.resources|
    requires forall j | 0 <= j < |c.resources| ::
      ResourceNarrows(rules, draft, d, d.resources[j]) <==>
        RelationshipsTieTenantKeys(c.resources[j], ById(c.resources), id, field)
    ensures ResourcesNarrow(rules, draft, d, |d.resources|) <==> UsedForTenantsOnly(c, id, field)
  {
    if ResourcesNarrow(rules, draft, d, |d.resources|) {
      forall j | 0 <= j < |c.resources| ensures RelationshipsTieTenantKeys(c.resources[j], ById(c.resources), id, field)
      {
        assert ResourceNarrows(rules, draft, d, d.resources[j]);
      }
    }
    if UsedForTenantsOnly(c, id, field) {
      forall j | 0 <= j < |d.resources| ensures ResourceNarrows(rules, draft, d, d.resources[j]) {
        assert RelationshipsTieTenantKeys(c.resources[j], ById(c.resources), id, field);
      }
    }
  }

  /**
   So for a column that a child count joins on, of the child or of the counting resource: keeping
   it out leaves the candidate accepted, and the count joining on it, if and only if reviewed
   relationships use it to tie tenant keys only.
   */
  lemma CountJoinsKeptOutExactly(rules: Rules, draft: Draft, c: Draft, u: nat, d: DerivedMeasure, j: nat, l: Link,
                                 i: nat, field: string)
    requires Narrows(rules, draft, c) && u < |c.resources| && j < |c.resources|
    requires Counts(c, c.resources[u], d, c.resources[j], l)
    requires i < |c.resources| && CanKeepOut(draft, c, i, field) && Touches(l, c.resources[i].id, field)
    ensures Narrows(rules, draft, KeepingOut(c, i, field)) <==> UsedForTenantsOnly(c, c.resources[i].id, field)
    ensures
      var now := KeepingOut(c, i, field);
      && Counts(now, now.resources[u], d, now.resources[j], l)
      && l.source in ById(now.resources) && l.target in ById(now.resources) && JoinsOn(l, ById(now.resources), field)
  {
    var now := KeepingOut(c, i, field);
    KeepingOutAcceptedExactly(rules, draft, c, i, field);
    TableKeepingOut(c, i, field);
    CountStays(c, i, field, u, d, j, l);
    ByIdFinds(now.resources, u);
    ByIdFinds(now.resources, j);
  }

  lemma CountStays(c: Draft, i: nat, field: string, u: nat, d: DerivedMeasure, j: nat, l: Link)
    requires i < |c.resources| && u < |c.resources| && j < |c.resources|
    requires DistinctIds(KeepingOut(c, i, field).resources)
    requires Counts(c, c.resources[u], d, c.resources[j], l)
    ensures
      var now := KeepingOut(c, i, field);
      && Counts(now, now.resources[u], d, now.resources[j], l)
      && l.source == now.resources[j].id && l.target == now.resources[u].id
  {
    var now := KeepingOut(c, i, field);
    assert SameBare(c.resources, now.resources);
    var child := AcceptsBlind(c.resources[u].id, d.childResource, d.relationship, c.resources, now.resources,
                              c.SingleOrganization(), c.resources[j], l);
    FoundByOwnId(now.resources, now.resources[j]);
    assert child == now.resources[j];
  }

  // ---- The concrete case

  const ITEM_LINK := Link(
    "fk", "public.items", "public.orders", ["order_id"], ["id"], Uniqueness(PrimaryKey, "orders_pkey", ["id"]), false,
    ManyToOne, 1)

  const ITEM_SCOPE := ScopePath(
    "derived", "fk", "public.orders", "tenant_id", LinkProof(DATABASE_CATALOG, [ITEM_LINK], LinkDigest([ITEM_LINK])))

  const ITEM_COUNT := DerivedMeasure.ChildCount("items", "Items", "child_count_total", "public.items", "fk")

  const ORDERS := SMALLEST_RESOURCE.(derivedMeasures := Some([ITEM_COUNT]))

  const ITEMS := SMALLEST_RESOURCE.(
    id := "public.items", table := "items", tenantKey := None, tenantScope := Some(ITEM_SCOPE),
    fieldTypes := map["order_id" := "integer"], keptOut := ["order_id"])

  const COUNTING_DRAFT := SMALLEST_DRAFT.(resources := [ORDERS, ITEMS])

  lemma CountingTable()
    ensures ORDERS.id != ITEMS.id && DistinctIds(COUNTING_DRAFT.resources)
    ensures ById(COUNTING_DRAFT.resources) == map[ORDERS.id := ORDERS, ITEMS.id := ITEMS]
    ensures FindResource(COUNTING_DRAFT.resources, ORDERS.id) == Some(ORDERS)
    ensures FindResource(COUNTING_DRAFT.resources, ITEMS.id) == Some(ITEMS)
  {
    assert [ORDERS, ITEMS][..1] == [ORDERS] && [ORDERS][..0] == [];
    assert [ORDERS, ITEMS][1..] == [ITEMS];
  }

  lemma ItemsCounted()
    ensures Counts(COUNTING_DRAFT, ORDERS, ITEM_COUNT, ITEMS, ITEM_LINK)
  {
    CountingTable();
    assert ChildProofs(ITEMS, "fk") == [ITEM_SCOPE.proof];
  }

  lemma ItemScopeProven()
    ensures ScopeProven(ITEMS.id, ITEM_SCOPE, ById(COUNTING_DRAFT.resources), Tenant, 1)
  {
    CountingTable();
    assert LinkInside(ITEMS.id, [ITEM_LINK], 0, ById(COUNTING_DRAFT.resources));
  }

  lemma CountingCompared()
    ensures ComparedWithDraft(ORDERS, ORDERS) && ComparedWithDraft(ITEMS, ITEMS)
  {
  }

  lemma OrdersConsistent(rules: Rules)
    requires rules.identifier("items") && rules.caption("Items")
    ensures SelfConsistent(rules, COUNTING_DRAFT, ORDERS)
  {
    ItemsCounted();
    assert MeasureReviewed(rules, COUNTING_DRAFT.resources, false, ORDERS, ITEM_COUNT);
  }

  lemma OrdersAccepted(rules: Rules)
    requires rules.identifier("items") && rules.caption("Items")
    ensures ResourceNarrows(rules, COUNTING_DRAFT, COUNTING_DRAFT, ORDERS)
  {
    CountingTable();
    OrdersConsistent(rules);
    CountingCompared();
  }

  lemma ItemsConsistent(rules: Rules)
    ensures SelfConsistent(rules, COUNTING_DRAFT, ITEMS)
  {
    ItemScopeProven();
  }

  lemma ItemsAccepted(rules: Rules)
    ensures ResourceNarrows(rules, COUNTING_DRAFT, COUNTING_DRAFT, ITEMS)
  {
    CountingTable();
    ItemsConsistent(rules);
    CountingCompared();
  }

  /**
   Orders count their items over the link of the items' derived tenant scope. The column it joins
   on is kept out and is no tenant key, and the candidate is accepted.
   */
  lemma CountJoinsKeptOutColumn(rules: Rules)
    requires rules.packName("pack") && rules.identifier("items") && rules.caption("Items")
    ensures Narrows(rules, COUNTING_DRAFT, COUNTING_DRAFT)
    ensures Counts(COUNTING_DRAFT, ORDERS, ITEM_COUNT, ITEMS, ITEM_LINK)
    ensures "order_id" in ITEM_LINK.sourceColumns && "order_id" in ITEMS.keptOut && ITEMS.tenantKey.None?
  {
    CountingAccepted(rules);
    ItemsCounted();
  }

  lemma EachNarrows(rules: Rules, draft: Draft, c: Draft, a: Resource, b: Resource)
    requires c.resources == [a, b]
    requires ResourceNarrows(rules, draft, c, a) && ResourceNarrows(rules, draft, c, b)
    ensures ResourcesNarrow(rules, draft, c, |c.resources|)
  {
    forall i | 0 <= i < |c.resources| ensures c.resources[i] == a || c.resources[i] == b {
    }
  }

  lemma CountingAccepted(rules: Rules)
    requires rules.packName("pack") && rules.identifier("items") && rules.caption("Items")
    ensures Narrows(rules, COUNTING_DRAFT, COUNTING_DRAFT)
  {
    CountingTable();
    OrdersAccepted(rules);
    ItemsAccepted(rules);
    EachNarrows(rules, COUNTING_DRAFT, COUNTING_DRAFT, ORDERS, ITEMS);
    CountingHeader(rules);
    SmallestBudgetsNarrow();
  }

  lemma CountingHeader(rules: Rules)
    requires rules.packName("pack")
    ensures HeaderNarrows(rules, COUNTING_DRAFT, COUNTING_DRAFT)
  {
  }
}
