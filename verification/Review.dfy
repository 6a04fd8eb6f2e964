/**
 Review of a candidate against its draft, and what acceptance means across all resources: no
 operation reads a kept-out field, or a field it could not read in the draft; relationships join
 on kept-out columns between tenant keys only; review is idempotent, its digest settles its
 outcome, and acceptance composes along a chain of reviews. Three things a review may widen, and
 exactly when: the aggregate functions of a field whose function list it drops, the model's view
 of a field it no longer withholds, and the budgets that have a hard ceiling. The joins of child
 counts are the subject of JoinKeys.
 */
module Review {
  import opened Catalog
  import opened Relational
  import opened Pack
  import opened Boundary
  import opened Sequences
  import opened ScopeProof
  import opened ChildCount
  import opened DependentAuthority
  import opened Narrowing

  // ---- Review

  /** Collision-free digest of the authority a boundary carries. */
  datatype BoundaryDigest = BoundaryDigest(authority: Draft)

  datatype Outcome = Outcome(digest: BoundaryDigest, candidate: Draft)

  /** Review decisions and the activation marker are no part of the authority. */
  function Authority(c: Draft): Draft {
    c.(unresolved := [], activation := "reviewed")
  }

  ghost function CandidateDigest(rules: Rules, c: Draft): BoundaryDigest {
    BoundaryDigest(Authority(Normalized(rules, c)))
  }

  /** A decision stays open while the resource and relationship it is about are still there. */
  predicate StillOpen(rules: Rules, resources: map<string, Resource>, decision: string) {
    match rules.subject(decision)
    case BoundaryWide => true
    case AboutResource(id) => id in resources
    case AboutRelationship(id, relationship, target) =>
      && id in resources
      && exists r | r in resources[id].relationships :: r.id == relationship && r.target == target
  }

  function RequiredDecisions(rules: Rules, draft: Draft, c: Draft): seq<string> {
    Filter(draft.unresolved, decision => StillOpen(rules, ById(c.resources), decision))
  }

  function Decided(rules: Rules, draft: Draft, c: Draft): Draft {
    c.(unresolved := RequiredDecisions(rules, draft, c))
  }

  lemma AcceptedOutcome(rules: Rules, draft: Draft, c: Draft)
    requires Narrows(rules, draft, Normalized(rules, c))
    ensures
      var out := Decided(rules, draft, Normalized(rules, c));
      Reviewed(rules, draft, c) == Some(Outcome(CandidateDigest(rules, out), out))
  {
  }

  ghost function Reviewed(rules: Rules, draft: Draft, c: Draft): Option<Outcome> {
    var coherent := Normalized(rules, c);
    if !Narrows(rules, draft, coherent) then None
    else
      var normalized := Decided(rules, draft, coherent);
      Some(Outcome(CandidateDigest(rules, normalized), normalized))
  }

  /** None where the original throws. The digest is that of the returned candidate. */
  method ReviewExplorationBoundaryCandidate(rules: Rules, draft: Draft, c: Draft) returns (reviewed: Option<Draft>)
    ensures reviewed.Some? <==> Narrows(rules, draft, Normalized(rules, c))
    ensures reviewed.Some? ==>
      Reviewed(rules, draft, c) == Some(Outcome(CandidateDigest(rules, reviewed.value), reviewed.value))
  {
    var coherent := NormalizeDependentAggregateAuthority(rules, c);
    var accepted := AssertBoundaryCandidateNarrowsDraft(rules, draft, coherent);
    if !accepted {
      return None;
    }
    AcceptedOutcome(rules, draft, c);
    return Some(Decided(rules, draft, coherent));
  }

  /** What the decision is about was retained: the whole boundary, a resource, or a relationship to a target. */
  ghost predicate AboutRetained(rules: Rules, c: Draft, decision: string) {
    match rules.subject(decision)
    case BoundaryWide => true
    case AboutResource(id) => exists r | r in c.resources :: r.id == id
    case AboutRelationship(id, relationship, target) =>
      exists r, x | r in c.resources && x in r.relationships :: r.id == id && x.id == relationship && x.target == target
  }

  lemma OpenIsRetained(rules: Rules, c: Draft, decision: string)
    requires DistinctIds(c.resources)
    ensures StillOpen(rules, ById(c.resources), decision) <==> AboutRetained(rules, c, decision)
  {
    forall r | r in c.resources ensures r.id in ById(c.resources) && ById(c.resources)[r.id] == r {
      var i :| 0 <= i < |c.resources| && c.resources[i] == r;
      ByIdFinds(c.resources, i);
    }
  }

  /** The decisions the outcome still asks for are the draft's decisions about what was retained, in their order. */
  lemma RequiredDecisionsAreOpen(rules: Rules, draft: Draft, c: Draft)
    requires DistinctIds(c.resources)
    ensures forall decision ::
      decision in RequiredDecisions(rules, draft, c) <==>
        decision in draft.unresolved && AboutRetained(rules, c, decision)
    ensures (forall decision | decision in draft.unresolved :: AboutRetained(rules, c, decision)) ==>
      RequiredDecisions(rules, draft, c) == draft.unresolved
  {
    forall decision ensures StillOpen(rules, ById(c.resources), decision) <==> AboutRetained(rules, c, decision) {
      OpenIsRetained(rules, c, decision);
    }
    var open := decision => StillOpen(rules, ById(c.resources), decision);
    FilterMembers(draft.unresolved, open);
    if forall decision | decision in draft.unresolved :: AboutRetained(rules, c, decision) {
      FilterAll(draft.unresolved, open);
    }
  }

  // ---- Review is idempotent and digest-stable

  lemma NormalizedIgnoresDecisions(rules: Rules, c: Draft, decisions: seq<string>)
    ensures Normalized(rules, c.(unresolved := decisions)) == Normalized(rules, c).(unresolved := decisions)
  {
    var d := c.(unresolved := decisions);
    assert TrimmedResources(d) == TrimmedResources(c);
    assert NormalizedResources(rules, d) == NormalizedResources(rules, c);
  }

  lemma NarrowsIgnoresDecisions(rules: Rules, draft: Draft, c: Draft, decisions: seq<string>)
    requires Narrows(rules, draft, c)
    ensures Narrows(rules, draft, c.(unresolved := decisions))
  {
    var d := c.(unresolved := decisions);
    forall i | 0 <= i < |d.resources| ensures ResourceNarrows(rules, draft, d, d.resources[i]) {
      assert ResourceNarrows(rules, draft, c, c.resources[i]);
      SameResourceCheck(rules, draft, c, d, c.resources[i]);
    }
  }

  lemma SameResourceCheck(rules: Rules, draft: Draft, c: Draft, d: Draft, r: Resource)
    requires d.resources == c.resources && d.budgets == c.budgets && d.organizationScope == c.organizationScope
    ensures ResourceNarrows(rules, draft, c, r) == ResourceNarrows(rules, draft, d, r)
  {
  }

  /** Reviewing an accepted candidate again returns it, with the digest of the unreviewed input. */
  lemma ReviewIdempotent(rules: Rules, draft: Draft, c: Draft)
    requires Reviewed(rules, draft, c).Some?
    ensures Reviewed(rules, draft, Reviewed(rules, draft, c).value.candidate) == Reviewed(rules, draft, c)
    ensures Reviewed(rules, draft, c).value.digest == CandidateDigest(rules, c)
    ensures Normalized(rules, Reviewed(rules, draft, c).value.candidate) == Reviewed(rules, draft, c).value.candidate
  {
    var coherent := Normalized(rules, c);
    var decisions := RequiredDecisions(rules, draft, coherent);
    var out := coherent.(unresolved := decisions);
    NormalizedTwice(rules, c);
    NormalizedIgnoresDecisions(rules, coherent, decisions);
    assert Normalized(rules, out) == out;
    NarrowsIgnoresDecisions(rules, draft, coherent, decisions);
    assert out.(unresolved := RequiredDecisions(rules, draft, out)) == out;
  }

  /** Two candidates accepted against one draft have the same digest exactly when their reviews agree. */
  lemma DigestSettlesReview(rules: Rules, draft: Draft, a: Draft, b: Draft)
    requires Reviewed(rules, draft, a).Some? && Reviewed(rules, draft, b).Some?
    ensures CandidateDigest(rules, a) == CandidateDigest(rules, b) <==>
      Reviewed(rules, draft, a) == Reviewed(rules, draft, b)
  {
    ReviewIdempotent(rules, draft, a);
    ReviewIdempotent(rules, draft, b);
    var p, q := Normalized(rules, a), Normalized(rules, b);
    if Authority(p) == Authority(q) {
      assert p.activation == q.activation == DISABLED_UNREVIEWED;
      assert Authority(p).(unresolved := p.unresolved, activation := DISABLED_UNREVIEWED) == p;
      assert p == q.(unresolved := p.unresolved) by {
        SameAuthoritySameHeader(p, q);
      }
    }
  }

  lemma SameAuthoritySameHeader(p: Draft, q: Draft)
    requires Authority(p) == Authority(q) && p.activation == q.activation
    ensures p == q.(unresolved := p.unresolved)
  {
    var a, b := Authority(p), Authority(q);
    assert p == a.(unresolved := p.unresolved, activation := p.activation);
    assert q == b.(unresolved := q.unresolved, activation := q.activation);
  }

  const SMALLEST_RESOURCE := Resource(
    "public.orders", "public", "orders", "", "id", Some("tenant_id"), None, None, None, None, map[], map[], [], map[],
      [], [], [],
    None, None, None, None, None, [], map[], [], None, [], None, 1, false, true)

  const SMALLEST_BUDGETS: Budgets := map["max_groups" := 1, "max_top_n" := 1, "max_relationship_hops" := 1]

  const SMALLEST_DRAFT := Draft(
    "v1", DISABLED_UNREVIEWED, "development", Immutable("source", "1", "1", None, None, "lock", "role", None), None,
      None,
    TrustedContext("environment", map[]), "pack", SMALLEST_BUDGETS, [SMALLEST_RESOURCE], [])

  lemma SmallestTable()
    ensures ById(SMALLEST_DRAFT.resources) == map[SMALLEST_RESOURCE.id := SMALLEST_RESOURCE]
  {
    assert [SMALLEST_RESOURCE][..0] == [];
  }

  lemma SmallestNormalized(rules: Rules)
    ensures Normalized(rules, SMALLEST_DRAFT) == SMALLEST_DRAFT
  {
    assert Trimmed(SMALLEST_RESOURCE, 1) == SMALLEST_RESOURCE;
  }

  lemma SmallestSelfConsistent(rules: Rules)
    ensures ResourceNarrows(rules, SMALLEST_DRAFT, SMALLEST_DRAFT, SMALLEST_RESOURCE)
  {
    SmallestTable();
    assert ComparedWithDraft(SMALLEST_RESOURCE, SMALLEST_RESOURCE);
  }

  /** The smallest boundary there is, one tenant-keyed resource, is accepted against itself. */
  lemma SmallestBoundaryAccepted(rules: Rules)
    requires rules.packName("pack")
    ensures Narrows(rules, SMALLEST_DRAFT, SMALLEST_DRAFT) && Normalized(rules, SMALLEST_DRAFT) == SMALLEST_DRAFT
  {
    SmallestNormalized(rules);
    SmallestSelfConsistent(rules);
    assert HeaderNarrows(rules, SMALLEST_DRAFT, SMALLEST_DRAFT);
    SmallestBudgetsNarrow();
  }

  lemma SmallestBudgetsNarrow()
    ensures BudgetsNarrow(SMALLEST_BUDGETS, SMALLEST_BUDGETS)
  {
  }

  // ---- Kept-out fields

  datatype Operation =
    | Select | FilterOn | SortBy | GroupBy | Aggregate | Presence | CountDistinct | TimeBucket
    | DerivedOperand | NumericBanding | AutoBanding

  function Operands(d: DerivedMeasure): seq<BaseMeasure> {
    match d
    case PostAggregate(_, _, _, base, _, _) => [base]
    case ChildCount(_, _, _, _, _) => []
    case Ratio(_, _, _, numerator, denominator, _) => [numerator, denominator]
  }

  /** A plan on `user` reads its own fields, and those of the targets of its relationships. */
  ghost predicate Sees(user: Resource, target: Resource) {
    user == target || exists r | r in user.relationships :: r.target == target.id
  }

  ghost predicate OperandReads(user: Resource, target: Resource, field: string, resources: seq<Resource>) {
    exists d, m | d in user.derivedMeasures.GetOr([]) && m in Operands(d) ::
      m.field == Some(field) && OperandTarget(user, m.relationship, resources) == Some(target)
  }

  ghost predicate BandReads(rules: Rules, user: Resource, target: Resource, field: string, resources: seq<Resource>) {
    exists d | d in user.numericBands.GetOr([]) ::
      var n := rules.numericBand(d);
      n.Some? && n.value.field == field && OperandTarget(user, n.value.relationship, resources) == Some(target)
  }

  /** The operation, planned on `user`, may touch this field of `target`. */
  ghost predicate Reaches(rules: Rules, resources: seq<Resource>, user: Resource, op: Operation, target: Resource,
                          field: string)
  {
    match op
    case Select => Sees(user, target) && field in target.selectable
    case FilterOn => Sees(user, target) && field in target.filterable
    case SortBy => Sees(user, target) && field in target.sortable
    case GroupBy => Sees(user, target) && field in target.groupable
    case Aggregate =>
      Sees(user, target) && (field in target.aggregates || field in target.aggregateFunctions.GetOr(map[]))
    case Presence => Sees(user, target) && field in target.presence.GetOr([])
    case CountDistinct => Sees(user, target) && field in target.countDistinct
    case TimeBucket => Sees(user, target) && field in target.timeBuckets
    case DerivedOperand => OperandReads(user, target, field, resources)
    case NumericBanding => BandReads(rules, user, target, field, resources)
    case AutoBanding =>
      user == target && exists d | d in user.autoBands.GetOr([]) ::
        rules.autoBand(d).Some? && rules.autoBand(d).value.field == field
  }

  lemma AcceptedResource(rules: Rules, draft: Draft, c: Draft, r: Resource)
    requires Narrows(rules, draft, c) && r in c.resources
    ensures ResourceNarrows(rules, draft, c, r)
  {
    var i :| 0 <= i < |c.resources| && c.resources[i] == r;
  }

  lemma KeptOutIsWithdrawn(rules: Rules, draft: Draft, c: Draft, r: Resource, field: string)
    requires ResourceNarrows(rules, draft, c, r) && field in r.keptOut
    ensures field !in r.selectable && field !in r.filterable && field !in r.sortable && field !in r.groupable
    ensures field !in r.aggregates && field !in r.countDistinct && field !in r.timeBuckets
    ensures field !in r.aggregateFunctions.GetOr(map[]) && field !in r.presence.GetOr([])
  {
    var i :| 0 <= i < |r.keptOut| && r.keptOut[i] == field;
    assert KeptOutUnavailable(r);
  }

  lemma OperandsAreReviewed(rules: Rules, resources: seq<Resource>, single: bool, r: Resource, d: DerivedMeasure)
    requires MeasureReviewed(rules, resources, single, r, d)
    ensures forall m | m in Operands(d) :: BaseMeasureReviewed(r, m, resources)
  {
  }

  lemma ReviewedOperandReads(root: Resource, m: BaseMeasure, resources: seq<Resource>, target: Resource, field: string)
    requires BaseMeasureReviewed(root, m, resources) && OperandTarget(root, m.relationship, resources) == Some(target)
    requires m.field == Some(field)
    ensures field in target.countDistinct || field in target.aggregates
  {
  }

  lemma AcceptedMeasure(rules: Rules, resources: seq<Resource>, single: bool, r: Resource, d: DerivedMeasure)
    requires MeasuresReviewed(rules, resources, single, r) && d in r.derivedMeasures.GetOr([])
    ensures MeasureReviewed(rules, resources, single, r, d)
  {
    var ds := r.derivedMeasures.GetOr([]);
    var i :| 0 <= i < |ds| && ds[i] == d;
    assert MeasuresReviewedUpTo(rules, resources, single, r, ds, |ds|);
  }

  lemma OperandsNeverReadWithdrawn(rules: Rules, resources: seq<Resource>, single: bool, user: Resource,
                                   target: Resource, field: string)
    requires MeasuresReviewed(rules, resources, single, user)
    requires field !in target.countDistinct && field !in target.aggregates
    ensures !OperandReads(user, target, field, resources)
  {
    forall d, m | d in user.derivedMeasures.GetOr([]) && m in Operands(d)
      && OperandTarget(user, m.relationship, resources) == Some(target)
      ensures m.field != Some(field)
    {
      AcceptedMeasure(rules, resources, single, user, d);
      OperandsAreReviewed(rules, resources, single, user, d);
      if m.field == Some(field) {
        ReviewedOperandReads(user, m, resources, target, field);
      }
    }
  }

  lemma BandsNeverReadWithdrawn(rules: Rules, draft: Draft, c: Draft, user: Resource, target: Resource, field: string)
    requires ResourceNarrows(rules, draft, c, user) && field !in target.aggregates
    ensures !BandReads(rules, user, target, field, c.resources)
  {
    var ds := user.numericBands.GetOr([]);
    forall d | d in ds && rules.numericBand(d).Some?
      && OperandTarget(user, rules.numericBand(d).value.relationship, c.resources) == Some(target)
      ensures rules.numericBand(d).value.field != field
    {
      var i :| 0 <= i < |ds| && ds[i] == d;
      assert NumericBandReviewed(rules, c.resources, user, ds[i]);
    }
  }

  /** No operation of any resource of an accepted candidate reads a kept-out field; joins are another matter. */
  lemma KeptOutUnreachable(rules: Rules, draft: Draft, c: Draft, user: Resource, op: Operation, target: Resource,
                           field: string)
    requires Narrows(rules, draft, c) && user in c.resources && target in c.resources
    requires field in target.keptOut
      || (target.id in ById(draft.resources) && field in ById(draft.resources)[target.id].keptOut)
    ensures field in target.keptOut
    ensures !Reaches(rules, c.resources, user, op, target, field)
  {
    AcceptedResource(rules, draft, c, target);
    AcceptedResource(rules, draft, c, user);
    GeneratedKeptOutStays(ById(draft.resources)[target.id], target, field);
    KeptOutIsWithdrawn(rules, draft, c, target, field);
    OperandsNeverReadWithdrawn(rules, c.resources, c.SingleOrganization(), user, target, field);
    BandsNeverReadWithdrawn(rules, draft, c, user, target, field);
    if op.AutoBanding? && user == target {
      AutoBandsAvoid(rules, user, field);
    }
  }

  lemma GeneratedKeptOutStays(o: Resource, r: Resource, field: string)
    requires ExposureNarrows(o, r)
    ensures field in o.keptOut ==> field in r.keptOut
  {
    if field in o.keptOut {
      var i :| 0 <= i < |o.keptOut| && o.keptOut[i] == field;
    }
  }

  lemma AutoBandsAvoid(rules: Rules, r: Resource, field: string)
    requires AutoBandsReviewed(rules, r) && field in r.keptOut
    ensures forall d | d in r.autoBands.GetOr([]) && rules.autoBand(d).Some? :: rules.autoBand(d).value.field != field
  {
    var ds := r.autoBands.GetOr([]);
    forall d | d in ds && rules.autoBand(d).Some? ensures rules.autoBand(d).value.field != field {
      var i :| 0 <= i < |ds| && ds[i] == d;
      assert AutoBandReviewed(rules, r, ds[i]);
    }
  }

  ghost predicate JoinsOn(l: Link, resources: map<string, Resource>, field: string)
    requires l.source in resources && l.target in resources
  {
    || (field in l.sourceColumns && field in resources[l.source].keptOut)
    || (field in l.targetColumns && field in resources[l.target].keptOut)
  }

  lemma AcceptedLink(rules: Rules, draft: Draft, c: Draft, user: Resource, r: Relationship, k: nat)
    requires Narrows(rules, draft, c) && user in c.resources && r in user.relationships
      && k < |ReviewedLinks(user.id, r)|
    ensures LinkReviewed(ReviewedLinks(user.id, r)[k], ById(c.resources))
  {
    AcceptedResource(rules, draft, c, user);
    var i :| 0 <= i < |user.relationships| && user.relationships[i] == r;
    var drafted := RelationshipsById(ById(draft.resources)[user.id].relationships);
    assert RelationshipNarrows(drafted, user.id, user.relationships[i], ById(c.resources), AnalysisHopLimit(c.budgets));
  }

  lemma KeptOutKeyIsUsed(l: Link, resources: map<string, Resource>, field: string)
    requires l.source in resources && l.target in resources && JoinsOn(l, resources, field)
    ensures UsesKeptOutJoinKey(l, resources[l.source], resources[l.target])
  {
    if field in l.sourceColumns && field in resources[l.source].keptOut {
      var j :| 0 <= j < |l.sourceColumns| && l.sourceColumns[j] == field;
    } else {
      var j :| 0 <= j < |l.targetColumns| && l.targetColumns[j] == field;
    }
  }

  /** A reviewed relationship joins on a kept-out column only to tie one tenant key to another. */
  lemma KeptOutJoinKeysAreTenantKeys(rules: Rules, draft: Draft, c: Draft, user: Resource, r: Relationship, k: nat,
                                     field: string)
    requires Narrows(rules, draft, c) && user in c.resources && r in user.relationships
      && k < |ReviewedLinks(user.id, r)|
    ensures ReviewedLinks(user.id, r)[k].source in ById(c.resources)
      && ReviewedLinks(user.id, r)[k].target in ById(c.resources)
    ensures
      var l, table := ReviewedLinks(user.id, r)[k], ById(c.resources);
      JoinsOn(l, table, field) ==>
        && |l.sourceColumns| == |l.targetColumns| == 1
        && table[l.source].tenantKey == Some(l.sourceColumns[0])
        && table[l.target].tenantKey == Some(l.targetColumns[0])
  {
    AcceptedLink(rules, draft, c, user, r, k);
    if JoinsOn(ReviewedLinks(user.id, r)[k], ById(c.resources), field) {
      KeptOutKeyIsUsed(ReviewedLinks(user.id, r)[k], ById(c.resources), field);
    }
  }

  // ---- What review narrows

  lemma DraftedResource(rules: Rules, draft: Draft, c: Draft, r: Resource) returns (o: Resource)
    requires Narrows(rules, draft, c) && r in c.resources
    ensures r.id in ById(draft.resources) && o == ById(draft.resources)[r.id] && o.id == r.id
    ensures ResourceNarrows(rules, draft, c, r)
  {
    AcceptedResource(rules, draft, c, r);
    o := ById(draft.resources)[r.id];
  }

  /** A relationship the candidate keeps leads where the draft's relationship of that id leads. */
  lemma KeptRelationshipDrafted(o: Resource, r: Resource, resources: map<string, Resource>, limit: int, x: Relationship)
    requires RelationshipsNarrow(o, r, resources, limit) && x in r.relationships
    ensures exists y | y in o.relationships :: y.id == x.id && y.target == x.target
  {
    var k :| 0 <= k < |r.relationships| && r.relationships[k] == x;
    var drafted := RelationshipsById(o.relationships);
    assert RelationshipNarrows(drafted, r.id, r.relationships[k], resources, limit);
    assert drafted[x.id] in o.relationships;
  }

  lemma SeesNarrows(rules: Rules, draft: Draft, c: Draft, user: Resource, target: Resource)
    requires Narrows(rules, draft, c) && user in c.resources && target in c.resources && Sees(user, target)
    ensures user.id in ById(draft.resources) && target.id in ById(draft.resources)
    ensures Sees(ById(draft.resources)[user.id], ById(draft.resources)[target.id])
  {
    var o := DraftedResource(rules, draft, c, user);
    var t := DraftedResource(rules, draft, c, target);
    if user != target {
      var x :| x in user.relationships && x.target == target.id;
      KeptRelationshipDrafted(o, user, ById(c.resources), AnalysisHopLimit(c.budgets), x);
      var y :| y in o.relationships && y.id == x.id && y.target == x.target;
      assert y.target == t.id;
    }
  }

  /** The operations that read a field through the lists of its own resource. */
  predicate ListedOperation(op: Operation) {
    !op.DerivedOperand? && !op.NumericBanding? && !op.AutoBanding?
  }

  lemma ListedFieldNarrows(o: Resource, r: Resource, field: string)
    requires ComparedWithDraft(o, r)
    ensures field in r.selectable ==> field in o.selectable
    ensures field in r.filterable ==> field in o.filterable
    ensures field in r.sortable ==> field in o.sortable
    ensures field in r.groupable ==> field in o.groupable
    ensures field in r.aggregates || field in r.aggregateFunctions.GetOr(map[]) ==> field in o.aggregates
    ensures field in r.presence.GetOr([]) ==> field in o.presence.GetOr([])
    ensures field in r.countDistinct ==> field in o.countDistinct
    ensures field in r.timeBuckets ==> field in o.timeBuckets
  {
    if field in r.selectable { SubsetHas(r.selectable, o.selectable, field); }
    if field in r.sortable { SubsetHas(r.sortable, o.sortable, field); }
    if field in r.groupable { SubsetHas(r.groupable, o.groupable, field); }
    if field in r.countDistinct { SubsetHas(r.countDistinct, o.countDistinct, field); }
    if field in r.aggregates { SubsetHas(r.aggregates, o.aggregates, field); }
    if field in r.presence.GetOr([]) { SubsetHas(r.presence.value, o.presence.GetOr([]), field); }
    if r.aggregateFunctions.Some? && field in r.aggregateFunctions.value {
      SubsetHas(r.aggregates, o.aggregates, field);
    }
  }

  /** An operation on listed fields reaches, in an accepted candidate, only what it reached in the draft. */
  lemma ReachNarrows(rules: Rules, draft: Draft, c: Draft, user: Resource, op: Operation, target: Resource,
                     field: string)
    requires Narrows(rules, draft, c) && user in c.resources && target in c.resources && ListedOperation(op)
    requires Reaches(rules, c.resources, user, op, target, field)
    ensures user.id in ById(draft.resources) && target.id in ById(draft.resources)
    ensures
      Reaches(rules, draft.resources, ById(draft.resources)[user.id], op, ById(draft.resources)[target.id], field)
  {
    var o := DraftedResource(rules, draft, c, target);
    ListedFieldNarrows(o, target, field);
    SeesNarrows(rules, draft, c, user, target);
  }

  /** The target an operand or a band reads is one the resource sees. */
  lemma OperandTargetSeen(resources: seq<Resource>, user: Resource, relationship: Option<string>, target: Resource)
    requires DistinctIds(resources) && user in resources
    requires OperandTarget(user, relationship, resources) == Some(target)
    ensures target in resources && Sees(user, target)
  {
    if relationship.None? {
      FoundByOwnId(resources, user);
    }
  }

  lemma {:induction false} FoundByOwnId(resources: seq<Resource>, r: Resource)
    requires DistinctIds(resources) && r in resources
    ensures FindResource(resources, r.id) == Some(r)
  {
    if resources[0] != r {
      var i :| 0 <= i < |resources| && resources[i] == r;
      assert resources[0].id != resources[i].id;
      FoundByOwnId(resources[1..], r);
    }
  }

  lemma OperandReadsSeen(rules: Rules, resources: seq<Resource>, single: bool, user: Resource, target: Resource,
                         field: string)
    requires DistinctIds(resources) && user in resources && MeasuresReviewed(rules, resources, single, user)
    requires OperandReads(user, target, field, resources)
    ensures target in resources && Sees(user, target) && (field in target.aggregates || field in target.countDistinct)
  {
    var d, m :| d in user.derivedMeasures.GetOr([]) && m in Operands(d)
      && m.field == Some(field) && OperandTarget(user, m.relationship, resources) == Some(target);
    AcceptedMeasure(rules, resources, single, user, d);
    OperandsAreReviewed(rules, resources, single, user, d);
    ReviewedOperandReads(user, m, resources, target, field);
    OperandTargetSeen(resources, user, m.relationship, target);
  }

  lemma BandReadsSeen(rules: Rules, resources: seq<Resource>, user: Resource, target: Resource, field: string)
    requires DistinctIds(resources) && user in resources && NumericBandsReviewed(rules, resources, user)
    requires BandReads(rules, user, target, field, resources)
    ensures target in resources && Sees(user, target) && field in target.aggregates
  {
    BandsAggregate(rules, resources, user, target, field);
    var d :| d in user.numericBands.GetOr([]) && rules.numericBand(d).Some?
      && OperandTarget(user, rules.numericBand(d).value.relationship, resources) == Some(target);
    OperandTargetSeen(resources, user, rules.numericBand(d).value.relationship, target);
  }

  lemma DefinitionReads(rules: Rules, draft: Draft, c: Draft, user: Resource, op: Operation, target: Resource,
                        field: string)
    requires ResourceNarrows(rules, draft, c, user) && DistinctIds(c.resources) && user in c.resources
    requires !ListedOperation(op) && Reaches(rules, c.resources, user, op, target, field)
    ensures target in c.resources && Sees(user, target) && (field in target.aggregates || field in target.countDistinct)
  {
    match op
    case DerivedOperand => OperandReadsSeen(rules, c.resources, c.SingleOrganization(), user, target, field);
    case NumericBanding => BandReadsSeen(rules, c.resources, user, target, field);
    case AutoBanding => AutoBandsAggregate(rules, user, field);
  }

  /** A derived measure or a band reads only fields that the draft lets the same resource aggregate or count. */
  lemma DefinitionReachNarrows(rules: Rules, draft: Draft, c: Draft, user: Resource, op: Operation, target: Resource,
                               field: string)
    requires Narrows(rules, draft, c) && user in c.resources && !ListedOperation(op)
    requires Reaches(rules, c.resources, user, op, target, field)
    ensures target in c.resources && user.id in ById(draft.resources) && target.id in ById(draft.resources)
    ensures
      var o, t := ById(draft.resources)[user.id], ById(draft.resources)[target.id];
      || Reaches(rules, draft.resources, o, Aggregate, t, field)
      || Reaches(rules, draft.resources, o, CountDistinct, t, field)
  {
    AcceptedResource(rules, draft, c, user);
    DefinitionReads(rules, draft, c, user, op, target, field);
    if field in target.aggregates {
      ReachNarrows(rules, draft, c, user, Aggregate, target, field);
    } else {
      ReachNarrows(rules, draft, c, user, CountDistinct, target, field);
    }
  }

  lemma BandsAggregate(rules: Rules, resources: seq<Resource>, user: Resource, target: Resource, field: string)
    requires NumericBandsReviewed(rules, resources, user) && BandReads(rules, user, target, field, resources)
    ensures field in target.aggregates
  {
    var ds := user.numericBands.GetOr([]);
    var d :| d in ds && rules.numericBand(d).Some? && rules.numericBand(d).value.field == field
      && OperandTarget(user, rules.numericBand(d).value.relationship, resources) == Some(target);
    var i :| 0 <= i < |ds| && ds[i] == d;
    assert NumericBandReviewed(rules, resources, user, ds[i]);
  }

  lemma AutoBandsAggregate(rules: Rules, r: Resource, field: string)
    requires AutoBandsReviewed(rules, r)
    requires exists d | d in r.autoBands.GetOr([]) :: rules.autoBand(d).Some? && rules.autoBand(d).value.field == field
    ensures field in r.aggregates
  {
    var ds := r.autoBands.GetOr([]);
    var d :| d in ds && rules.autoBand(d).Some? && rules.autoBand(d).value.field == field;
    var i :| 0 <= i < |ds| && ds[i] == d;
    assert AutoBandReviewed(rules, r, ds[i]);
  }

  // ---- What review may widen

  /**
   A candidate allows an aggregate function the draft does not exactly when it has dropped the
   field's function list, which then stands for sum and avg, and the draft lacks one of these.
   */
  lemma FunctionsWidenExactlyWhenDropped(o: Resource, r: Resource, field: string)
    requires ComparedWithDraft(o, r) && field in r.aggregates
    ensures
      (exists f | f in FunctionsOf(r, field) :: f !in FunctionsOf(o, field)) <==>
        && field !in r.aggregateFunctions.GetOr(map[])
        && ("sum" !in FunctionsOf(o, field) || "avg" !in FunctionsOf(o, field))
  {
    if field in r.aggregateFunctions.GetOr(map[]) {
      forall f | f in FunctionsOf(r, field) ensures f in FunctionsOf(o, field) {
        SubsetHas(r.aggregateFunctions.value[field], o.aggregateFunctions.value[field], f);
      }
    } else {
      assert FunctionsOf(r, field) == ["sum", "avg"];
      assert "sum" in FunctionsOf(r, field) && "avg" in FunctionsOf(r, field);
    }
  }

  /** The model may read the field's values, not only the runner. */
  predicate ModelVisible(r: Resource, field: string) {
    field in r.selectable && field !in r.modelWithheld.GetOr([])
  }

  /** A field becomes visible to the model exactly when the candidate stops withholding it. */
  lemma VisibilityWidensExactlyWhenReleased(o: Resource, r: Resource, field: string)
    requires ComparedWithDraft(o, r)
    ensures ModelVisible(r, field) && !ModelVisible(o, field) <==>
      field in r.selectable && field in o.modelWithheld.GetOr([]) && field !in r.modelWithheld.GetOr([])
  {
    if field in r.selectable {
      SubsetHas(r.selectable, o.selectable, field);
    }
  }

  /** A budget is new or above the draft's only where a hard ceiling exists, and never beyond it. */
  lemma BudgetWidensOnlyToCeiling(draft: Budgets, c: Budgets, key: string)
    requires BudgetsNarrow(draft, c) && key in c && (key !in draft || c[key] > draft[key])
    ensures key in CEILINGS && c[key] <= CEILINGS[key]
  {
    assert BudgetNarrows(draft, c, key);
  }

  /** Any value from one to the ceiling is accepted exactly when it fits the other budgets. */
  lemma BudgetReachesCeiling(draft: Budgets, c: Budgets, key: string, value: int)
    requires BudgetsNarrow(draft, c) && key in CEILINGS
    ensures BudgetsNarrow(draft, c[key := value]) <==> 1 <= value <= CEILINGS[key] && BudgetsFit(c[key := value])
  {
    var d: Budgets := c[key := value];
    if 1 <= value <= CEILINGS[key] {
      forall k | k in d ensures BudgetNarrows(draft, d, k) {
        if k == key {
          assert key in draft ==> BudgetNarrows(draft, c, key);
        } else {
          assert BudgetNarrows(draft, c, k);
        }
      }
    } else {
      assert !BudgetNarrows(draft, d, key);
    }
  }

  lemma ResourceNarrowsUnderLargerBudgets(rules: Rules, draft: Draft, c: Draft, budgets: Budgets, r: Resource)
    requires ResourceNarrows(rules, draft, c, r)
    requires DerivedScopeHopLimit(c.budgets) <= DerivedScopeHopLimit(budgets)
    requires AnalysisHopLimit(c.budgets) <= AnalysisHopLimit(budgets)
    ensures ResourceNarrows(rules, draft, c.(budgets := budgets), r)
  {
    var o, table := ById(draft.resources)[r.id], ById(c.resources);
    forall k | 0 <= k < |r.relationships|
      ensures RelationshipNarrows(RelationshipsById(o.relationships), r.id, r.relationships[k], table,
        AnalysisHopLimit(budgets))
    {
      assert RelationshipNarrows(
        RelationshipsById(o.relationships), r.id, r.relationships[k], table, AnalysisHopLimit(c.budgets));
    }
  }

  /** Raised budgets keep an accepted candidate accepted, as long as they fit and no hop limit falls. */
  lemma RaisedBudgetsAccepted(rules: Rules, draft: Draft, c: Draft, budgets: Budgets)
    requires Narrows(rules, draft, c) && BudgetsNarrow(draft.budgets, budgets)
    requires DerivedScopeHopLimit(c.budgets) <= DerivedScopeHopLimit(budgets)
    requires AnalysisHopLimit(c.budgets) <= AnalysisHopLimit(budgets)
    ensures Narrows(rules, draft, c.(budgets := budgets))
  {
    var d := c.(budgets := budgets);
    forall i | 0 <= i < |d.resources| ensures ResourceNarrows(rules, draft, d, d.resources[i]) {
      assert ResourceNarrows(rules, draft, c, c.resources[i]);
      ResourceNarrowsUnderLargerBudgets(rules, draft, c, budgets, c.resources[i]);
    }
  }

  const RAISED_BUDGETS: Budgets := map[
    "max_groups" := 500, "max_top_n" := 100, "max_relationship_hops" := 1, "max_rows" := 100,
    "max_derived_scope_hops" := 3, "max_analysis_relationship_hops" := 3]

  lemma RaisedBudgetsNarrow()
    ensures BudgetsNarrow(SMALLEST_BUDGETS, RAISED_BUDGETS)
    ensures AnalysisHopLimit(RAISED_BUDGETS) == DerivedScopeHopLimit(RAISED_BUDGETS) == 3
  {
    assert forall key | key in RAISED_BUDGETS :: BudgetNarrows(SMALLEST_BUDGETS, RAISED_BUDGETS, key);
  }

  /** The draft allows one group and one hop; the accepted candidate five hundred groups, three hops and rows. */
  lemma RaisingAccepted(rules: Rules)
    requires rules.packName("pack")
    ensures Narrows(rules, SMALLEST_DRAFT, SMALLEST_DRAFT.(budgets := RAISED_BUDGETS))
    ensures RAISED_BUDGETS["max_groups"] > SMALLEST_BUDGETS["max_groups"] && "max_rows" !in SMALLEST_BUDGETS
    ensures AnalysisHopLimit(RAISED_BUDGETS) > AnalysisHopLimit(SMALLEST_BUDGETS)
  {
    SmallestBoundaryAccepted(rules);
    RaisedBudgetsNarrow();
    RaisedBudgetsAccepted(rules, SMALLEST_DRAFT, SMALLEST_DRAFT, RAISED_BUDGETS);
  }

  const WIDENED_RESOURCE := SMALLEST_RESOURCE.(
    fieldTypes := map["amount" := "numeric", "memo" := "text"], selectable := ["memo"], aggregates := ["amount"])

  const WIDENING_DRAFT := SMALLEST_DRAFT.(
    resources := [WIDENED_RESOURCE.(
      aggregateFunctions := Some(map["amount" := ["sum"]]), modelWithheld := Some(["memo"]))])

  const WIDENED_CANDIDATE := SMALLEST_DRAFT.(resources := [WIDENED_RESOURCE])

  lemma WideningTables()
    ensures ById(WIDENING_DRAFT.resources) == map[SMALLEST_RESOURCE.id := WIDENING_DRAFT.resources[0]]
    ensures ById(WIDENED_CANDIDATE.resources) == map[SMALLEST_RESOURCE.id := WIDENED_RESOURCE]
  {
    assert WIDENING_DRAFT.resources[..0] == [] && [WIDENED_RESOURCE][..0] == [];
  }

  lemma WidenedResourceAccepted(rules: Rules)
    ensures ResourceNarrows(rules, WIDENING_DRAFT, WIDENED_CANDIDATE, WIDENED_RESOURCE)
  {
    WideningTables();
    assert ComparedWithDraft(WIDENING_DRAFT.resources[0], WIDENED_RESOURCE);
  }

  lemma WidenedFields()
    ensures "avg" in FunctionsOf(WIDENED_RESOURCE, "amount")
      && "avg" !in FunctionsOf(WIDENING_DRAFT.resources[0], "amount")
    ensures ModelVisible(WIDENED_RESOURCE, "memo") && !ModelVisible(WIDENING_DRAFT.resources[0], "memo")
  {
    assert FunctionsOf(WIDENED_RESOURCE, "amount")[1] == "avg";
  }

  /** Both widenings at once: the draft sums only and withholds the memo, the accepted candidate does neither. */
  lemma WideningAccepted(rules: Rules)
    requires rules.packName("pack")
    ensures Narrows(rules, WIDENING_DRAFT, WIDENED_CANDIDATE)
    ensures "avg" in FunctionsOf(WIDENED_RESOURCE, "amount")
      && "avg" !in FunctionsOf(WIDENING_DRAFT.resources[0], "amount")
    ensures ModelVisible(WIDENED_RESOURCE, "memo") && !ModelVisible(WIDENING_DRAFT.resources[0], "memo")
  {
    WidenedResourceAccepted(rules);
    WidenedFields();
    assert HeaderNarrows(rules, WIDENING_DRAFT, WIDENED_CANDIDATE);
    SmallestBudgetsNarrow();
  }

  // ---- Rows

  /** Joining along an accepted relationship never multiplies a row. */
  lemma AcceptedRelationshipNeverMultiplies(rules: Rules, draft: Draft, c: Draft, user: Resource, r: Relationship,
                                            db: Database, row: Row)
    requires Narrows(rules, draft, c) && user in c.resources && r in user.relationships
    requires PathHolds(db, ReviewedLinks(user.id, r))
    ensures |Reached(db, ReviewedLinks(user.id, r), 0, row)| <= 1
  {
    var links := ReviewedLinks(user.id, r);
    forall k: nat | k < |links| ensures links[k].uniqueness.columns == links[k].targetColumns {
      AcceptedLink(rules, draft, c, user, r, k);
    }
    ReachesAtMostOne(db, links, 0, row);
  }

  lemma {:induction false} ReachesAtMostOne(db: Database, links: seq<Link>, from: nat, row: Row)
    requires PathHolds(db, links) && forall k: nat | k < |links| ::
      links[k].uniqueness.columns == links[k].targetColumns
    ensures |Reached(db, links, from, row)| <= 1
    decreases |links| - from
  {
    if from < |links| {
      var l := links[from];
      assert LinkHolds(db, l);
      JoinedAtMostOne(l, row, Rows(db, l.target));
      var joined := Joined(l, row, Rows(db, l.target));
      if joined != [] {
        ReachesAtMostOne(db, links, from + 1, joined[0]);
        assert ReachedFromAll(db, links, from + 1, joined[1..]) == [];
      }
    }
  }

  ghost predicate ScopeIsolates(db: Database, root: string, scope: ScopePath, a: int, b: int) {
    var links, column := scope.proof.links, scope.column;
    && ScopedRead(db, links, column, a, Rows(db, root)) == OwnedRows(db, links, column, a, Rows(db, root))
    && (a != b ==>
          multiset(ScopedRead(db, links, column, a, Rows(db, root)))
          + multiset(ScopedRead(db, links, column, b, Rows(db, root))) <= multiset(Rows(db, root)))
  }

  /**
   Every resource of an accepted candidate has exactly one tenant mode, or none in a
   single-organization boundary, and each of its derived scopes, tenant or principal, isolates
   trusted values in every database that obeys its links.
   */
  lemma AcceptedCandidateIsolates(rules: Rules, draft: Draft, c: Draft, r: Resource, db: Database, a: int, b: int)
    requires Narrows(rules, draft, c) && r in c.resources
    ensures TenantModes(r) == if c.SingleOrganization() then 0 else 1
    ensures r.tenantScope.Some? && PathHolds(db, r.tenantScope.value.proof.links) ==>
      ScopeIsolates(db, r.id, r.tenantScope.value, a, b)
    ensures r.principalScope.Some? && PathHolds(db, r.principalScope.value.proof.links) ==>
      ScopeIsolates(db, r.id, r.principalScope.value, a, b)
  {
    AcceptedResource(rules, draft, c, r);
    var table, hops := ById(c.resources), ScopeHops(c.budgets);
    if r.tenantScope.Some? && PathHolds(db, r.tenantScope.value.proof.links) {
      ValidatedScopeIsolates(r.id, r.tenantScope.value, table, Tenant, hops, db, a, b);
    }
    if r.principalScope.Some? && PathHolds(db, r.principalScope.value.proof.links) {
      ValidatedScopeIsolates(r.id, r.principalScope.value, table, Principal, hops, db, a, b);
    }
  }

  // ---- A chain of reviews

  lemma SubsetComposes(a: seq<string>, b: seq<string>, c: seq<string>)
    requires Subset(a, b) && Subset(b, c)
    ensures Subset(a, c)
  {
    forall i | 0 <= i < |a| ensures a[i] in c {
      var j :| 0 <= j < |b| && b[j] == a[i];
    }
  }

  lemma SubsetHas(a: seq<string>, b: seq<string>, x: string)
    requires Subset(a, b) && x in a
    ensures x in b
  {
    var i :| 0 <= i < |a| && a[i] == x;
  }

  lemma OperatorsCompose(a: map<string, seq<string>>, b: map<string, seq<string>>, c: map<string, seq<string>>)
    requires OperatorsNarrow(a, b) && OperatorsNarrow(b, c)
    ensures OperatorsNarrow(a, c)
  {
    forall f | f in a ensures f in c && Subset(a[f], c[f]) {
      SubsetComposes(a[f], b[f], c[f]);
    }
  }

  lemma FieldsCompose(o: Resource, p: Resource, q: Resource)
    requires FieldsNarrow(o, p) && FieldsNarrow(p, q)
    ensures FieldsNarrow(o, q)
  {
    SubsetComposes(q.selectable, p.selectable, o.selectable);
    SubsetComposes(q.sortable, p.sortable, o.sortable);
    SubsetComposes(q.groupable, p.groupable, o.groupable);
    SubsetComposes(q.aggregates, p.aggregates, o.aggregates);
    SubsetComposes(q.countDistinct, p.countDistinct, o.countDistinct);
    OperatorsCompose(q.filterable, p.filterable, o.filterable);
    OperatorsCompose(q.timeBuckets, p.timeBuckets, o.timeBuckets);
  }

  lemma EnumsCompose(o: Resource, p: Resource, q: Resource)
    requires EnumsNarrow(o, p) && EnumsNarrow(p, q) && FieldsNarrow(p, q)
    ensures EnumsNarrow(o, q)
  {
    forall f | f in q.fieldEnums ensures Subset(q.fieldEnums[f], o.fieldEnums[f]) {
      SubsetComposes(q.fieldEnums[f], p.fieldEnums[f], o.fieldEnums[f]);
    }
    forall f | f in o.fieldEnums && f !in q.fieldEnums ensures f !in q.filterable && f !in q.groupable {
      if f in q.groupable {
        SubsetHas(q.groupable, p.groupable, f);
      }
    }
  }

  lemma FunctionsCompose(o: Resource, p: Resource, q: Resource)
    requires FunctionsNarrow(o, p) && FunctionsNarrow(p, q)
    ensures FunctionsNarrow(o, q)
  {
    if q.aggregateFunctions.Some? {
      var mine := q.aggregateFunctions.value;
      var drafted := o.aggregateFunctions.GetOr(map[]);
      forall f | f in mine ensures f in q.aggregates && f in drafted && Subset(mine[f], drafted[f]) {
        SubsetComposes(mine[f], p.aggregateFunctions.value[f], drafted[f]);
      }
    }
  }

  lemma PresenceComposes(o: Resource, p: Resource, q: Resource)
    requires PresenceNarrows(o, p) && PresenceNarrows(p, q)
    ensures PresenceNarrows(o, q)
  {
    if q.presence.Some? {
      if p.presence.Some? {
        SubsetComposes(q.presence.value, p.presence.value, o.presence.GetOr([]));
      }
    }
  }

  lemma ExposureComposes(o: Resource, p: Resource, q: Resource)
    requires ExposureNarrows(o, p) && ExposureNarrows(p, q) && p.fieldTypes == o.fieldTypes
    ensures ExposureNarrows(o, q)
  {
    SubsetComposes(o.keptOut, p.keptOut, q.keptOut);
    SubsetComposes(q.modelWithheld.GetOr([]), p.modelWithheld.GetOr([]), o.modelWithheld.GetOr([]));
  }

  lemma ComparisonComposes(o: Resource, p: Resource, q: Resource)
    requires ComparedWithDraft(o, p) && ComparedWithDraft(p, q)
    ensures ComparedWithDraft(o, q)
  {
    FieldsCompose(o, p, q);
    EnumsCompose(o, p, q);
    FunctionsCompose(o, p, q);
    PresenceComposes(o, p, q);
    ExposureComposes(o, p, q);
  }

  lemma RelationshipComposes(o: Resource, p: Resource, source: string, r: Relationship, first: map<string, Resource>,
                             m: int, second: map<string, Resource>, n: int)
    requires RelationshipsNarrow(o, p, first, m)
    requires RelationshipNarrows(RelationshipsById(p.relationships), source, r, second, n)
    ensures RelationshipNarrows(RelationshipsById(o.relationships), source, r, second, n)
  {
    var e := RelationshipsById(p.relationships)[r.id];
    var k :| 0 <= k < |p.relationships| && p.relationships[k] == e;
    assert RelationshipNarrows(RelationshipsById(o.relationships), p.id, p.relationships[k], first, m);
  }

  lemma RelationshipsCompose(o: Resource, p: Resource, q: Resource, first: map<string, Resource>, m: int,
                             second: map<string, Resource>, n: int)
    requires RelationshipsNarrow(o, p, first, m) && RelationshipsNarrow(p, q, second, n)
    ensures RelationshipsNarrow(o, q, second, n)
  {
    forall k | 0 <= k < |q.relationships|
      ensures RelationshipNarrows(RelationshipsById(o.relationships), q.id, q.relationships[k], second, n)
    {
      RelationshipComposes(o, p, q.id, q.relationships[k], first, m, second, n);
    }
  }

  lemma BudgetsCompose(d: Budgets, b: Budgets, c: Budgets)
    requires BudgetsNarrow(d, b) && BudgetsNarrow(b, c)
    ensures BudgetsNarrow(d, c)
  {
    forall key | key in c ensures BudgetNarrows(d, c, key) {
      assert BudgetNarrows(b, c, key);
      if key in b {
        assert BudgetNarrows(d, b, key);
      }
    }
  }

  /** A candidate accepted against an accepted candidate would have been accepted against the first draft. */
  lemma NarrowingComposes(rules: Rules, draft: Draft, first: Draft, second: Draft)
    requires Narrows(rules, draft, first) && Narrows(rules, first, second)
    ensures Narrows(rules, draft, second)
  {
    BudgetsCompose(draft.budgets, first.budgets, second.budgets);
    forall i | 0 <= i < |second.resources| ensures ResourceNarrows(rules, draft, second, second.resources[i]) {
      ResourceComposes(rules, draft, first, second, second.resources[i]);
    }
  }

  lemma ResourceComposes(rules: Rules, draft: Draft, first: Draft, second: Draft, r: Resource)
    requires Narrows(rules, draft, first) && ResourceNarrows(rules, first, second, r)
    ensures ResourceNarrows(rules, draft, second, r)
  {
    var p := ById(first.resources)[r.id];
    AcceptedResource(rules, draft, first, p);
    var o := ById(draft.resources)[r.id];
    ComparisonComposes(o, p, r);
    RelationshipsCompose(o, p, r, ById(first.resources), AnalysisHopLimit(first.budgets),
                         ById(second.resources), AnalysisHopLimit(second.budgets));
  }

  /** So nothing a second review accepts reaches a field the first draft kept out. */
  lemma KeptOutAfterEveryReview(rules: Rules, draft: Draft, first: Draft, second: Draft, user: Resource, op: Operation,
                                target: Resource, field: string)
    requires Reviewed(rules, draft, first).Some?
      && Reviewed(rules, Reviewed(rules, draft, first).value.candidate, second).Some?
    requires
      var accepted := Reviewed(rules, Reviewed(rules, draft, first).value.candidate, second).value.candidate;
      user in accepted.resources && target in accepted.resources
    requires target.id in ById(draft.resources) && field in ById(draft.resources)[target.id].keptOut
    ensures !Reaches(rules, Normalized(rules, second).resources, user, op, target, field)
  {
    var middle := Reviewed(rules, draft, first).value.candidate;
    NarrowsIgnoresDecisions(rules, draft, Normalized(rules, first), middle.unresolved);
    NarrowingComposes(rules, draft, middle, Normalized(rules, second));
    KeptOutUnreachable(rules, draft, Normalized(rules, second), user, op, target, field);
  }
}
