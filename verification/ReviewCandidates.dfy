/**
 The two candidates a draft is offered for review with: the recommended one and the instant
 local one. Each lowers the budgets to the reviewed defaults, keeps the selected resources and
 the relationships that stay among them, and is then reviewed, which drops what is deeper than
 the analysis hop limit.
 */
module ReviewCandidates {
  import opened Catalog
  import opened Pack
  import opened Boundary
  import opened Sequences
  import opened ScopeClosure
  import opened Selection
  import opened InstantSelection
  import opened DependentAuthority
  import opened Narrowing
  import opened Review

  /** The budgets of a newly created candidate; a draft carries larger ones. */
  const REVIEWED_DEFAULTS: map<string, int> := map[
    "max_rows" := 50,
    "max_groups" := 50,
    "max_ranked_groups" := 500,
    "max_top_n" := 25,
    "max_measures" := 3,
    "max_dimensions" := 3,
    "max_time_ranges" := 2,
    "max_relationship_hops" := 2,
    "max_derived_scope_hops" := 2,
    "max_analysis_relationship_hops" := 2,
    "max_response_cells" := 500,
    "max_response_bytes" := 65536,
    "statement_timeout_ms" := 3000,
    "max_complexity" := 24,
    "max_queries_per_session" := 1000,
    "max_extracted_cells_per_session" := 4000,
    "max_differencing_queries" := 16,
    "rate_limit_per_minute" := 120]

  function LoweredBudgets(b: Budgets): Budgets {
    map key | key in b ::
      if key in REVIEWED_DEFAULTS && SafeInteger(b[key]) then Min(b[key], REVIEWED_DEFAULTS[key]) else b[key]
  }

  /** The hop limit the candidates are reviewed with. */
  function CandidateHops(draft: Draft): int {
    AnalysisHopLimit(LoweredBudgets(draft.budgets))
  }

  function TrimAll(resources: seq<Resource>, limit: int): (trimmed: seq<Resource>)
    ensures |trimmed| == |resources|
    ensures forall i | 0 <= i < |trimmed| :: trimmed[i] == TrimRelationships(resources[i], limit)
  {
    seq(|resources|, i requires 0 <= i < |resources| => TrimRelationships(resources[i], limit))
  }

  function CandidateWithReviewedDefaults(draft: Draft): Draft {
    draft.(budgets := LoweredBudgets(draft.budgets), resources := TrimAll(draft.resources, CandidateHops(draft)))
  }

  function RecommendedCandidate(draft: Draft, ids: set<string>): Draft {
    var c := CandidateWithReviewedDefaults(draft);
    if ids == IdsOf(draft.resources) then c else c.(resources := Restricted(c.resources, ids))
  }

  /** The selected resources of the draft, each with the relationships whose links all stay inside. */
  function KeptSelection(selected: seq<Resource>, ids: set<string>): (kept: seq<Resource>)
    ensures |kept| == |selected|
    ensures forall i | 0 <= i < |kept| ::
      kept[i] == selected[i].(relationships := Filter(selected[i].relationships, KeptInside(ids)))
  {
    seq(|selected|, i requires 0 <= i < |selected| =>
      selected[i].(relationships := Filter(selected[i].relationships, KeptInside(ids))))
  }

  function InstantCandidate(draft: Draft, selected: seq<Resource>, ids: set<string>): Draft {
    CandidateWithReviewedDefaults(draft).(
      profile := if draft.profile == "production" then "production" else "development",
      resources := KeptSelection(selected, ids))
  }

  // ---- The two candidates

  /** Within the cap everything is recommended; beyond it, a closed selection that nothing more fits into. */
  ghost predicate Recommendable(resources: seq<Resource>, ids: set<string>, maximum: nat, collation: Collation) {
    if |resources| <= maximum then ids == IdsOf(resources)
    else
      && |ids| <= maximum && Closed(ById(resources), ids) && Maximal(ById(resources), ids, maximum)
      && (TotalOrder(collation) ==> GreedySelection(resources, collation, maximum, ids))
  }

  /** None where the original throws; an empty draft is returned with its budgets lowered. */
  method RecommendedBoundaryReviewCandidate(rules: Rules, draft: Draft, maximum: int, collation: Collation)
    returns (outcome: Option<Draft>, selected: set<string>)
    requires DistinctIds(draft.resources)
    ensures maximum < 1 ==> outcome.None?
    ensures maximum >= 1 && draft.resources == [] ==> outcome == Some(CandidateWithReviewedDefaults(draft))
    ensures maximum >= 1 && draft.resources != [] ==>
      && Recommendable(draft.resources, selected, maximum, collation)
      && IsReviewOf(rules, draft, RecommendedCandidate(draft, selected), outcome)
  {
    if maximum < 1 {
      return None, {};
    }
    if draft.resources == [] {
      return Some(CandidateWithReviewedDefaults(draft)), {};
    }
    selected := RecommendedSelection(draft.resources, maximum, collation);
    outcome := ReviewOf(rules, draft, RecommendedCandidate(draft, selected));
  }

  /** The outcome of reviewing a candidate against its draft. */
  ghost predicate IsReviewOf(rules: Rules, draft: Draft, c: Draft, outcome: Option<Draft>) {
    && (outcome.Some? <==> Reviewed(rules, draft, c).Some?)
    && (outcome.Some? ==> Reviewed(rules, draft, c).value.candidate == outcome.value)
  }

  method ReviewOf(rules: Rules, draft: Draft, c: Draft) returns (outcome: Option<Draft>)
    ensures IsReviewOf(rules, draft, c, outcome)
  {
    outcome := ReviewExplorationBoundaryCandidate(rules, draft, c);
  }

  /** None where the original throws; an empty draft is returned as it is. */
  method InstantLocalBoundaryCandidate(rules: Rules, draft: Draft, collation: Collation)
    returns (outcome: Option<Draft>, selected: seq<Resource>, chosen: set<string>, ghost stages: seq<Stage>)
    requires DistinctIds(draft.resources)
    ensures draft.resources == [] ==> outcome == Some(draft)
    ensures draft.resources != [] ==>
      && Agrees(draft.resources, selected, chosen)
      && |selected| == |chosen| <= Min(INSTANT_BOUNDARY_RESOURCE_LIMIT, |draft.resources|)
      && Closed(ById(draft.resources), chosen) && Connected(ById(draft.resources), chosen)
      && GrowthExhausted(draft.resources, chosen, Min(INSTANT_BOUNDARY_RESOURCE_LIMIT, |draft.resources|))
      && GrownTo(draft.resources, collation, stages, selected, chosen, Min(5, |draft.resources|))
      && IsReviewOf(rules, draft, InstantCandidate(draft, selected, chosen), outcome)
  {
    if draft.resources == [] {
      return Some(draft), [], {}, [];
    }
    selected, chosen, stages := InstantLocalSelection(draft.resources, collation);
    outcome := ReviewOf(rules, draft, InstantCandidate(draft, selected, chosen));
  }

  // ---- What review does to a candidate

  /** Review keeps every resource, its scopes, and the relationships within the hop limit. */
  lemma ReviewedResource(rules: Rules, draft: Draft, c: Draft, i: nat)
    requires Reviewed(rules, draft, c).Some? && i < |c.resources|
    ensures
      var out := Reviewed(rules, draft, c).value.candidate.resources;
      && |out| == |c.resources|
      && out[i].id == c.resources[i].id
      && out[i].tenantScope == c.resources[i].tenantScope && out[i].principalScope == c.resources[i].principalScope
      && out[i].relationships == Filter(c.resources[i].relationships, HopCheck(AnalysisHopLimit(c.budgets)))
  {
    assert TrimmedResources(c)[i] == Trimmed(c.resources[i], AnalysisHopLimit(c.budgets));
  }

  predicate AnyTargetsKept(rs: seq<Relationship>, ids: set<string>, limit: int, b: string) {
    exists i | 0 <= i < |rs| :: rs[i].target == b && StaysInside(rs[i], ids) && WithinHops(limit, rs[i])
  }

  lemma KeptRelates(own: seq<Relationship>, ids: set<string>, limit: int, b: string)
    ensures AnyTargets(Filter(Filter(own, KeptInside(ids)), HopCheck(limit)), b) <==> AnyTargetsKept(own, ids, limit, b)
  {
    var inside := Filter(own, KeptInside(ids));
    var kept := Filter(inside, HopCheck(limit));
    FilterMembers(own, KeptInside(ids));
    FilterMembers(inside, HopCheck(limit));
    if AnyTargets(kept, b) {
      var i :| 0 <= i < |kept| && kept[i].target == b;
      assert kept[i] in kept && kept[i] in own;
      var k :| 0 <= k < |own| && own[k] == kept[i];
      assert AnyTargetsKept(own, ids, limit, b);
    }
    if AnyTargetsKept(own, ids, limit, b) {
      var k :| 0 <= k < |own| && own[k].target == b && StaysInside(own[k], ids) && WithinHops(limit, own[k]);
      assert own[k] in inside && own[k] in kept;
      var i :| 0 <= i < |kept| && kept[i] == own[k];
      assert AnyTargets(kept, b);
    }
  }

  // ---- The instant candidate as it is returned

  /** The resources of the instant candidate after review. */
  ghost function Returned(rules: Rules, draft: Draft, selected: seq<Resource>, ids: set<string>): seq<Resource>
    requires Reviewed(rules, draft, InstantCandidate(draft, selected, ids)).Some?
  {
    Reviewed(rules, draft, InstantCandidate(draft, selected, ids)).value.candidate.resources
  }

  lemma ReturnedResource(rules: Rules, draft: Draft, selected: seq<Resource>, ids: set<string>, id: string)
    requires DistinctIds(draft.resources) && Agrees(draft.resources, selected, ids) && id in ids
    requires Reviewed(rules, draft, InstantCandidate(draft, selected, ids)).Some?
    ensures id in ById(draft.resources) && id in ById(Returned(rules, draft, selected, ids))
    ensures
      var was, now := ById(draft.resources)[id], ById(Returned(rules, draft, selected, ids))[id];
      && now.tenantScope == was.tenantScope && now.principalScope == was.principalScope
      && now.relationships == Filter(Filter(was.relationships, KeptInside(ids)), HopCheck(CandidateHops(draft)))
  {
    var out := Returned(rules, draft, selected, ids);
    var i :| 0 <= i < |selected| && selected[i].id == id;
    assert selected[i] in draft.resources;
    var k :| 0 <= k < |draft.resources| && draft.resources[k] == selected[i];
    ByIdFinds(draft.resources, k);
    ReturnedIds(rules, draft, selected, ids);
    ReturnedAt(rules, draft, selected, ids, i);
    ByIdFinds(out, i);
  }

  lemma ReturnedAt(rules: Rules, draft: Draft, selected: seq<Resource>, ids: set<string>, i: nat)
    requires Reviewed(rules, draft, InstantCandidate(draft, selected, ids)).Some? && i < |selected|
    ensures
      var out := Returned(rules, draft, selected, ids);
      && |out| == |selected| && out[i].id == selected[i].id
      && out[i].tenantScope == selected[i].tenantScope && out[i].principalScope == selected[i].principalScope
      && out[i].relationships
         == Filter(Filter(selected[i].relationships, KeptInside(ids)), HopCheck(CandidateHops(draft)))
  {
    ReviewedResource(rules, draft, InstantCandidate(draft, selected, ids), i);
  }

  lemma ReturnedIds(rules: Rules, draft: Draft, selected: seq<Resource>, ids: set<string>)
    requires DistinctIds(selected) && Reviewed(rules, draft, InstantCandidate(draft, selected, ids)).Some?
    ensures |Returned(rules, draft, selected, ids)| == |selected| && DistinctIds(Returned(rules, draft, selected, ids))
  {
    var out := Returned(rules, draft, selected, ids);
    forall j | 0 <= j < |selected| ensures |out| == |selected| && out[j].id == selected[j].id {
      ReviewedResource(rules, draft, InstantCandidate(draft, selected, ids), j);
    }
  }

  /** Some relationship from a to b keeps all its links inside and is within the hop limit. */
  ghost predicate RelatesWithin(draft: Draft, ids: set<string>, a: string, b: string) {
    a in ById(draft.resources)
    && AnyTargetsKept(ById(draft.resources)[a].relationships, ids, CandidateHops(draft), b)
  }

  /**
   The returned candidate relates two resources exactly when some relationship between them
   stays inside the selection and within the hop limit.
   */
  lemma ReturnedRelates(rules: Rules, draft: Draft, selected: seq<Resource>, ids: set<string>, a: string, b: string)
    requires DistinctIds(draft.resources) && Agrees(draft.resources, selected, ids) && a in ids
    requires Reviewed(rules, draft, InstantCandidate(draft, selected, ids)).Some?
    ensures Relates(ById(Returned(rules, draft, selected, ids)), a, b) <==> RelatesWithin(draft, ids, a, b)
  {
    ReturnedResource(rules, draft, selected, ids, a);
    KeptRelates(ById(draft.resources)[a].relationships, ids, CandidateHops(draft), b);
  }

  /** Whatever relates two selected resources, some relationship between them is kept. */
  ghost predicate JoinedWithin(draft: Draft, ids: set<string>) {
    forall a, b | a in ids && b in ids && Relates(ById(draft.resources), a, b) :: RelatesWithin(draft, ids, a, b)
  }

  /**
   The returned candidate is itself connected when no two selected resources are related only
   through paths that leave the selection or are too deep.
   */
  lemma ReturnedConnected(rules: Rules, draft: Draft, selected: seq<Resource>, ids: set<string>)
    requires DistinctIds(draft.resources) && Agrees(draft.resources, selected, ids)
    requires Reviewed(rules, draft, InstantCandidate(draft, selected, ids)).Some?
    requires Connected(ById(draft.resources), ids) && JoinedWithin(draft, ids)
    ensures Connected(ById(Returned(rules, draft, selected, ids)), ids)
  {
    var all, kept := ById(draft.resources), ById(Returned(rules, draft, selected, ids));
    forall part | part < ids && part != {} ensures Crosses(kept, part, ids - part) {
      var a, b :| a in part && b in ids - part && Adjacent(all, a, b);
      AdjacencyKept(rules, draft, selected, ids, a, b);
    }
  }

  lemma AdjacencyKept(rules: Rules, draft: Draft, selected: seq<Resource>, ids: set<string>, a: string, b: string)
    requires DistinctIds(draft.resources) && Agrees(draft.resources, selected, ids) && JoinedWithin(draft, ids)
    requires Reviewed(rules, draft, InstantCandidate(draft, selected, ids)).Some?
    requires a in ids && b in ids && Adjacent(ById(draft.resources), a, b)
    ensures Adjacent(ById(Returned(rules, draft, selected, ids)), a, b)
  {
    ReturnedRelates(rules, draft, selected, ids, a, b);
    ReturnedRelates(rules, draft, selected, ids, b, a);
    ReturnedResource(rules, draft, selected, ids, a);
    ReturnedResource(rules, draft, selected, ids, b);
  }

  // ---- The recommended candidate as it is returned

  lemma TrimmedEntry(resources: seq<Resource>, limit: int, id: string)
    requires DistinctIds(resources) && id in ById(resources)
    ensures DistinctIds(TrimAll(resources, limit)) && id in ById(TrimAll(resources, limit))
    ensures ById(TrimAll(resources, limit))[id] == TrimRelationships(ById(resources)[id], limit)
  {
    var trimmed := TrimAll(resources, limit);
    assert DistinctIds(trimmed);
    var i :| 0 <= i < |resources| && resources[i] == ById(resources)[id];
    ByIdFinds(trimmed, i);
  }

  /** Trimming relationships leaves the scope dependencies, so a closed selection stays closed. */
  lemma TrimmedStaysClosed(resources: seq<Resource>, limit: int, ids: set<string>)
    requires DistinctIds(resources) && Closed(ById(resources), ids)
    ensures DistinctIds(TrimAll(resources, limit)) && Closed(ById(TrimAll(resources, limit)), ids)
  {
    var all, trimmed := ById(resources), ById(TrimAll(resources, limit));
    assert DistinctIds(TrimAll(resources, limit));
    forall id | id in ids ensures id in trimmed && Dependencies(trimmed[id]) == Dependencies(all[id]) {
      TrimmedEntry(resources, limit, id);
    }
    forall id, d | id in ids && DependsOn(trimmed, id, d) ensures d in ids {
      assert DependsOn(all, id, d);
    }
  }

  lemma RestrictedCandidateSelfContained(draft: Draft, ids: set<string>, r: Resource, rel: Relationship)
    requires DistinctIds(draft.resources) && Closed(ById(draft.resources), ids) && ids != IdsOf(draft.resources)
    requires r in RecommendedCandidate(draft, ids).resources
    ensures r.id in ids && PathInside(r.tenantScope, ids) && PathInside(r.principalScope, ids)
    ensures rel in r.relationships ==> StaysInside(rel, ids)
  {
    var trimmed := TrimAll(draft.resources, CandidateHops(draft));
    TrimmedStaysClosed(draft.resources, CandidateHops(draft), ids);
    RestrictedMembers(trimmed, ids, r);
    RestrictedIsSelfContained(trimmed, ids, r, rel);
  }

  /** Everything a returned recommended resource relies on was selected, and no relationship is too deep. */
  lemma RecommendedIsSelfContained(rules: Rules, draft: Draft, ids: set<string>, i: nat, rel: Relationship)
    requires DistinctIds(draft.resources) && Closed(ById(draft.resources), ids) && ids != IdsOf(draft.resources)
    requires Reviewed(rules, draft, RecommendedCandidate(draft, ids)).Some?
    requires i < |RecommendedCandidate(draft, ids).resources|
    ensures
      var out := Reviewed(rules, draft, RecommendedCandidate(draft, ids)).value.candidate.resources;
      && |out| == |RecommendedCandidate(draft, ids).resources|
      && out[i].id in ids && PathInside(out[i].tenantScope, ids) && PathInside(out[i].principalScope, ids)
      && (rel in out[i].relationships ==> StaysInside(rel, ids) && rel.Depth() <= CandidateHops(draft))
  {
    var c := RecommendedCandidate(draft, ids);
    ReviewedResource(rules, draft, c, i);
    RestrictedCandidateSelfContained(draft, ids, c.resources[i], rel);
    FilterMembers(c.resources[i].relationships, HopCheck(CandidateHops(draft)));
  }

  // ---- The lowered budgets

  /** The reviewed default of a budget, for those that have one. */
  function ReviewedDefault(key: string): Option<int> {
    match key
    case "max_rows" => Some(50)
    case "max_groups" => Some(50)
    case "max_ranked_groups" => Some(500)
    case "max_top_n" => Some(25)
    case "max_measures" => Some(3)
    case "max_dimensions" => Some(3)
    case "max_time_ranges" => Some(2)
    case "max_relationship_hops" => Some(2)
    case "max_derived_scope_hops" => Some(2)
    case "max_analysis_relationship_hops" => Some(2)
    case "max_response_cells" => Some(500)
    case "max_response_bytes" => Some(65536)
    case "statement_timeout_ms" => Some(3000)
    case "max_complexity" => Some(24)
    case "max_queries_per_session" => Some(1000)
    case "max_extracted_cells_per_session" => Some(4000)
    case "max_differencing_queries" => Some(16)
    case "rate_limit_per_minute" => Some(120)
    case _ => None
  }

  /** Each budget is the smaller of the draft's and its reviewed default; none is added or dropped. */
  lemma LoweredExactly(b: Budgets, key: string)
    requires key in b && SafeInteger(b[key])
    ensures LoweredBudgets(b).Keys == b.Keys
    ensures LoweredBudgets(b)[key] ==
      if ReviewedDefault(key).Some? && ReviewedDefault(key).value < b[key] then ReviewedDefault(key).value else b[key]
  {
    DefaultsAgree(key);
  }

  lemma DefaultsAgree(key: string)
    ensures key in REVIEWED_DEFAULTS <==> ReviewedDefault(key).Some?
    ensures key in REVIEWED_DEFAULTS ==> REVIEWED_DEFAULTS[key] == ReviewedDefault(key).value
  {
  }

  lemma DefaultsPositive(key: string)
    requires key in REVIEWED_DEFAULTS
    ensures REVIEWED_DEFAULTS[key] >= 1
  {
    DefaultsAgree(key);
  }

  lemma LoweredFit(b: Budgets)
    requires BudgetsFit(b) && forall key | key in b :: SafeInteger(b[key])
    ensures BudgetsFit(LoweredBudgets(b))
  {
    DefaultsAgree("max_groups");
    DefaultsAgree("max_top_n");
    DefaultsAgree("max_ranked_groups");
  }

  /** Budgets a review accepts as they are, it accepts lowered. */
  lemma LoweredBudgetsAccepted(b: Budgets)
    requires BudgetsNarrow(b, b)
    ensures BudgetsNarrow(b, LoweredBudgets(b))
  {
    forall key | key in b ensures SafeInteger(b[key]) && BudgetNarrows(b, LoweredBudgets(b), key) {
      assert BudgetNarrows(b, b, key);
      if key in REVIEWED_DEFAULTS {
        DefaultsPositive(key);
      }
    }
    LoweredFit(b);
  }

  // ---- What the candidates hold

  /** All its links stay inside; without links, its target does. */
  predicate StaysAmong(x: Relationship, ids: set<string>) {
    if x.Links() == [] then x.target in ids
    else forall l | l in x.Links() :: l.source in ids && l.target in ids
  }

  lemma InsideMeans(x: Relationship, ids: set<string>)
    ensures StaysInside(x, ids) <==> StaysAmong(x, ids)
  {
    if StaysInside(x, ids) {
      forall l | l in x.Links() ensures x.Links() == [] || (l.source in ids && l.target in ids) {
        var i :| 0 <= i < |x.Links()| && x.Links()[i] == l;
      }
    }
  }

  /** A relationship of the draft is in the candidate exactly if it is within the hop limit and stays inside. */
  lemma {:induction false} RestrictedHolds(resources: seq<Resource>, ids: set<string>, o: Resource)
    requires o in resources && o.id in ids
    ensures o.(relationships := Filter(o.relationships, KeptInside(ids))) in Restricted(resources, ids)
  {
    if resources[0] != o {
      RestrictedHolds(resources[1..], ids, o);
    }
  }

  /** The candidate for a selection holds each selected resource, with the relationships that may stay. */
  lemma RecommendedHolds(draft: Draft, ids: set<string>, k: nat) returns (r: Resource)
    requires k < |draft.resources| && draft.resources[k].id in ids && ids != IdsOf(draft.resources)
    ensures r in RecommendedCandidate(draft, ids).resources
    ensures r == draft.resources[k].(relationships := r.relationships)
    ensures forall x :: x in r.relationships <==>
      x in draft.resources[k].relationships && x.Depth() <= CandidateHops(draft) && StaysAmong(x, ids)
  {
    var o := draft.resources[k];
    var trimmed := TrimAll(draft.resources, CandidateHops(draft));
    assert trimmed[k] in trimmed;
    r := trimmed[k].(relationships := Filter(trimmed[k].relationships, KeptInside(ids)));
    RestrictedHolds(trimmed, ids, trimmed[k]);
    FilterMembers(o.relationships, HopCheck(CandidateHops(draft)));
    FilterMembers(trimmed[k].relationships, KeptInside(ids));
    forall x ensures KeptInside(ids)(x) <==> StaysAmong(x, ids) {
      InsideMeans(x, ids);
    }
  }

  /** Where everything is recommended, each resource keeps the relationships within the hop limit. */
  lemma WholeHolds(draft: Draft, k: nat)
    requires k < |draft.resources|
    ensures
      var out := RecommendedCandidate(draft, IdsOf(draft.resources)).resources;
      && |out| == |draft.resources| && out[k] == draft.resources[k].(relationships := out[k].relationships)
      && forall x :: x in out[k].relationships <==>
           x in draft.resources[k].relationships && x.Depth() <= CandidateHops(draft)
  {
    FilterMembers(draft.resources[k].relationships, HopCheck(CandidateHops(draft)));
  }

  /** The instant candidate holds the selected resources in order, each with the relationships that stay inside. */
  lemma InstantHolds(draft: Draft, selected: seq<Resource>, ids: set<string>, k: nat)
    requires k < |selected|
    ensures |InstantCandidate(draft, selected, ids).resources| == |selected|
    ensures
      var r := InstantCandidate(draft, selected, ids).resources[k];
      && r == selected[k].(relationships := r.relationships)
      && forall x :: x in r.relationships <==> x in selected[k].relationships && StaysAmong(x, ids)
  {
    FilterMembers(selected[k].relationships, KeptInside(ids));
    forall x ensures KeptInside(ids)(x) <==> StaysAmong(x, ids) {
      InsideMeans(x, ids);
    }
  }

  /** But for budgets, resources, decisions and activation, a boundary is the draft's under this profile. */
  predicate DraftedUnder(draft: Draft, c: Draft, profile: string) {
    c == draft.(profile := profile, budgets := c.budgets, resources := c.resources, unresolved := c.unresolved)
  }

  /**
   As returned, the recommended candidate keeps the draft's profile, and the instant one is a
   production boundary for a production draft and a development one for any other.
   */
  lemma ReturnedProfiles(rules: Rules, draft: Draft, c: Draft, selected: seq<Resource>, ids: set<string>)
    requires Reviewed(rules, draft, c).Some?
    ensures c == RecommendedCandidate(draft, ids) ==>
      DraftedUnder(draft, Reviewed(rules, draft, c).value.candidate, draft.profile)
    ensures c == InstantCandidate(draft, selected, ids) ==>
      DraftedUnder(draft, Reviewed(rules, draft, c).value.candidate,
                   if draft.profile == "production" then "production" else "development")
  {
  }
}
