/**
 Choosing resources for review. The recommended selection is greedy, yet one pass leaves
 nothing addable; the instant selection grows a connected group. Both only ever add a
 resource together with its whole scope closure.
 */
module Selection {
  import opened Catalog
  import opened Pack
  import opened ScopeClosure
  import opened Sequences

  const INSTANT_BOUNDARY_RESOURCE_LIMIT := 5

  function Min(a: int, b: int): int {
    if a < b then a else b
  }

  function ReviewScore(r: Resource): int {
    (if r.principalKey.Some? then 40 else 0)
    + (if r.rlsSession.Some? then 20 else 0)
    + (if |r.timeBuckets| > 0 then 12 else 0)
    + (if |r.aggregates| > 0 then 10 else 0)
    + (if |r.groupable| > 0 then 8 else 0)
    + (if |r.countDistinct| > 0 then 5 else 0)
    + Min(|r.relationships|, 2) * 6
    + Min(|r.selectable|, 8)
    - Min(|r.keptOut|, 8)
  }

  predicate ReviewLe(collation: (string, string) -> bool, a: Resource, b: Resource) {
    ReviewScore(a) > ReviewScore(b) || (ReviewScore(a) == ReviewScore(b) && collation(a.id, b.id))
  }

  /** Higher review score first, then id. */
  function ReviewOrder(collation: (string, string) -> bool): (Resource, Resource) -> bool {
    (a: Resource, b: Resource) => ReviewLe(collation, a, b)
  }

  // ---- Adding one resource with its scope closure

  /** The resource and its whole closure fit beside what is selected. */
  ghost predicate Fits(resources: ResourceMap, ids: set<string>, id: string, maximum: nat) {
    exists closure :: IsClosure(resources, id, closure) && |ids + closure| <= maximum
  }

  lemma ClosureUnique(resources: ResourceMap, id: string, a: set<string>, b: set<string>)
    requires IsClosure(resources, id, a) && IsClosure(resources, id, b)
    ensures a == b
  {
  }

  lemma NothingMissingInClosure(resources: ResourceMap, id: string, s: set<string>)
    requires IsClosure(resources, id, s)
    ensures !MissingDependency(resources, id)
  {
    forall d | Reachable(resources, id, d) ensures d in resources {
      ClosedContainsReachable(resources, id, s, d);
    }
  }

  class SelectedIds {
    var ids: set<string>

    constructor ()
      ensures ids == {}
    {
      ids := {};
    }

    /** Adds the closure of one resource, all of it or nothing. */
    method AddWithScopeDependencies(id: string, resources: ResourceMap, maximum: nat) returns (added: bool)
      modifies this
      ensures added <==> Fits(resources, old(ids), id, maximum)
      ensures added ==>
        exists closure :: IsClosure(resources, id, closure) && ids == old(ids) + closure && |ids| <= maximum
      ensures !added ==> ids == old(ids)
    {
      var closure := ScopeDependencyClosure(id, resources);
      if closure.None? {
        if Fits(resources, ids, id, maximum) {
          ghost var s :| IsClosure(resources, id, s) && |ids + s| <= maximum;
          NothingMissingInClosure(resources, id, s);
        }
        return false;
      }
      var additions := closure.value - ids;
      assert ids + additions == ids + closure.value;
      if |ids| + |additions| > maximum {
        if Fits(resources, ids, id, maximum) {
          ghost var s :| IsClosure(resources, id, s) && |ids + s| <= maximum;
          ClosureUnique(resources, id, s, closure.value);
        }
        return false;
      }
      ids := ids + additions;
      return true;
    }
  }

  lemma ClosedUnion(resources: ResourceMap, a: set<string>, b: set<string>)
    requires Closed(resources, a) && Closed(resources, b)
    ensures Closed(resources, a + b)
  {
  }

  /** A larger selection leaves less room: what did not fit before does not fit later. */
  lemma FitsShrinks(resources: ResourceMap, small: set<string>, large: set<string>, id: string, maximum: nat)
    requires small <= large && Fits(resources, large, id, maximum)
    ensures Fits(resources, small, id, maximum)
  {
    var closure :| IsClosure(resources, id, closure) && |large + closure| <= maximum;
    SubsetCardinality(small + closure, large + closure);
  }

  /** A full selection has no room for any resource it does not hold. */
  lemma FullFitsNothing(resources: ResourceMap, ids: set<string>, id: string, maximum: nat)
    requires |ids| >= maximum && id !in ids
    ensures !Fits(resources, ids, id, maximum)
  {
    forall closure | IsClosure(resources, id, closure) ensures |ids + closure| > maximum {
      SubsetCardinality(ids, ids + closure);
      assert id in ids + closure;
    }
  }

  // ---- Who comes first

  /** What a resource offers a reviewer; every term is capped but for the fixed bonuses. */
  function ReviewWorth(r: Resource): int {
    var related := if |r.relationships| >= 2 then 12 else 6 * |r.relationships|;
    var shown := if |r.selectable| >= 8 then 8 else |r.selectable|;
    var hidden := if |r.keptOut| >= 8 then 8 else |r.keptOut|;
    (if r.principalKey != None then 40 else 0) + (if r.rlsSession != None then 20 else 0)
    + (if r.timeBuckets != map[] then 12 else 0) + (if r.aggregates != [] then 10 else 0)
    + (if r.groupable != [] then 8 else 0) + (if r.countDistinct != [] then 5 else 0)
    + related + shown - hidden
  }

  /** Worth more, or worth as much with an id no later. */
  predicate Outranks(collation: Collation, a: Resource, b: Resource) {
    ReviewWorth(a) > ReviewWorth(b) || (ReviewWorth(a) == ReviewWorth(b) && collation(a.id, b.id))
  }

  lemma ScoreIsWorth(r: Resource)
    ensures ReviewScore(r) == ReviewWorth(r)
  {
    assert |r.timeBuckets| > 0 <==> r.timeBuckets != map[];
  }

  ghost predicate BestFirst(collation: Collation, order: seq<Resource>) {
    forall i, j | 0 <= i < j < |order| :: Outranks(collation, order[i], order[j])
  }

  lemma ReviewOrderIsPreorder(collation: Collation)
    requires TotalOrder(collation)
    ensures TotalPreorder(ReviewOrder(collation))
  {
    var le := ReviewOrder(collation);
    forall x, y ensures le(x, y) || le(y, x) {
      assert ReviewLe(collation, x, y) || ReviewLe(collation, y, x);
    }
    forall x, y, z | le(x, y) && le(y, z) ensures le(x, z) {
      assert ReviewLe(collation, x, y) && ReviewLe(collation, y, z);
      assert ReviewLe(collation, x, z);
    }
  }

  lemma SortedBestFirst(rs: seq<Resource>, collation: Collation)
    requires TotalOrder(collation)
    ensures BestFirst(collation, Sort(rs, ReviewOrder(collation)))
  {
    var le, order := ReviewOrder(collation), Sort(rs, ReviewOrder(collation));
    ReviewOrderIsPreorder(collation);
    SortSorted(rs, le);
    forall i, j | 0 <= i < j < |order| ensures Outranks(collation, order[i], order[j]) {
      assert le(order[i], order[j]);
      ScoreIsWorth(order[i]);
      ScoreIsWorth(order[j]);
    }
  }

  // ---- Taking resources in turn

  /** A resource is taken with its whole closure if that fits, and passed over otherwise. */
  ghost predicate Takes(resources: ResourceMap, before: set<string>, id: string, after: set<string>, maximum: nat) {
    if Fits(resources, before, id, maximum)
    then exists closure :: IsClosure(resources, id, closure) && after == before + closure
    else after == before
  }

  /** The selection after the first k of the order were offered a place in turn. */
  ghost predicate TakenInTurn(resources: ResourceMap, before: set<string>, order: seq<Resource>, k: nat,
                              after: set<string>, maximum: nat)
    requires k <= |order|
    decreases k, 1
  {
    if k == 0 then after == before
    else exists mid :: TakenVia(resources, before, order, k, mid, after, maximum)
  }

  /** Before the last of the k turns the selection was `mid`. */
  ghost predicate TakenVia(resources: ResourceMap, before: set<string>, order: seq<Resource>, k: nat, mid: set<string>,
                           after: set<string>, maximum: nat)
    requires 0 < k <= |order|
    decreases k, 0
  {
    && TakenInTurn(resources, before, order, k - 1, mid, maximum)
    && Takes(resources, mid, order[k - 1].id, after, maximum)
  }

  lemma TakesNext(resources: ResourceMap, before: set<string>, order: seq<Resource>, k: nat, mid: set<string>,
                  after: set<string>, maximum: nat)
    requires k < |order| && TakenInTurn(resources, before, order, k, mid, maximum)
    requires Takes(resources, mid, order[k].id, after, maximum)
    ensures TakenInTurn(resources, before, order, k + 1, after, maximum)
  {
    assert TakenVia(resources, before, order, k + 1, mid, after, maximum);
  }

  lemma FullTakesNothing(resources: ResourceMap, ids: set<string>, id: string, maximum: nat)
    requires |ids| >= maximum
    ensures Takes(resources, ids, id, ids, maximum)
  {
    if Fits(resources, ids, id, maximum) {
      var closure :| IsClosure(resources, id, closure) && |ids + closure| <= maximum;
      SubsetCardinality(ids, ids + closure);
      assert ids == ids + closure;
    }
  }

  lemma {:induction false} FullStays(resources: ResourceMap, before: set<string>, order: seq<Resource>, k: nat,
                                     ids: set<string>, maximum: nat)
    requires k <= |order| && |ids| >= maximum && TakenInTurn(resources, before, order, k, ids, maximum)
    ensures TakenInTurn(resources, before, order, |order|, ids, maximum)
    decreases |order| - k
  {
    if k < |order| {
      FullTakesNothing(resources, ids, order[k].id, maximum);
      TakesNext(resources, before, order, k, ids, ids, maximum);
      FullStays(resources, before, order, k + 1, ids, maximum);
    }
  }

  // ---- The recommended selection

  ghost predicate Maximal(resources: ResourceMap, ids: set<string>, maximum: nat) {
    forall id | id in resources && id !in ids :: !Fits(resources, ids, id, maximum)
  }

  /** Offers every listed resource a place in turn, stopping when the selection is full. */
  method AddEach(ids: SelectedIds, order: seq<Resource>, resources: ResourceMap, maximum: nat)
    requires Closed(resources, ids.ids) && |ids.ids| <= maximum
    modifies ids
    ensures old(ids.ids) <= ids.ids && Closed(resources, ids.ids) && |ids.ids| <= maximum
    ensures TakenInTurn(resources, old(ids.ids), order, |order|, ids.ids, maximum)
    ensures forall r | r in order && r.id !in ids.ids :: !Fits(resources, ids.ids, r.id, maximum)
  {
    ghost var start := ids.ids;
    var k := 0;
    while k < |order|
      invariant k <= |order|
      invariant start <= ids.ids && Closed(resources, ids.ids) && |ids.ids| <= maximum
      invariant TakenInTurn(resources, start, order, k, ids.ids, maximum)
      invariant NoneFitBefore(resources, order, k, ids.ids, maximum)
    {
      if |ids.ids| >= maximum {
        forall r | r in order && r.id !in ids.ids ensures !Fits(resources, ids.ids, r.id, maximum) {
          FullFitsNothing(resources, ids.ids, r.id, maximum);
        }
        FullStays(resources, start, order, k, ids.ids, maximum);
        return;
      }
      AddOne(ids, order, k, start, resources, maximum);
      k := k + 1;
    }
  }

  ghost predicate NoneFitBefore(resources: ResourceMap, order: seq<Resource>, k: nat, ids: set<string>, maximum: nat)
    requires k <= |order|
  {
    forall j | 0 <= j < k && order[j].id !in ids :: !Fits(resources, ids, order[j].id, maximum)
  }

  /** What did not fit before does not fit afterwards either. */
  lemma NoneFitsLater(resources: ResourceMap, order: seq<Resource>, k: nat, before: set<string>, ids: set<string>,
                      maximum: nat)
    requires k < |order| && before <= ids && NoneFitBefore(resources, order, k, before, maximum)
    requires Fits(resources, before, order[k].id, maximum) ==> order[k].id in ids
    ensures NoneFitBefore(resources, order, k + 1, ids, maximum)
  {
    forall j | 0 <= j < k + 1 && order[j].id !in ids ensures !Fits(resources, ids, order[j].id, maximum) {
      if Fits(resources, ids, order[j].id, maximum) {
        FitsShrinks(resources, before, ids, order[j].id, maximum);
      }
    }
  }

  /** One turn. */
  method AddOne(ids: SelectedIds, order: seq<Resource>, k: nat, ghost start: set<string>, resources: ResourceMap,
                maximum: nat)
    requires k < |order| && start <= ids.ids && Closed(resources, ids.ids) && |ids.ids| <= maximum
    requires TakenInTurn(resources, start, order, k, ids.ids, maximum)
    requires NoneFitBefore(resources, order, k, ids.ids, maximum)
    modifies ids
    ensures start <= ids.ids && Closed(resources, ids.ids) && |ids.ids| <= maximum
    ensures TakenInTurn(resources, start, order, k + 1, ids.ids, maximum)
    ensures NoneFitBefore(resources, order, k + 1, ids.ids, maximum)
  {
    ghost var before := ids.ids;
    var added := ids.AddWithScopeDependencies(order[k].id, resources, maximum);
    if added {
      ghost var closure :| IsClosure(resources, order[k].id, closure) && ids.ids == before + closure;
      ClosedUnion(resources, before, closure);
    }
    TakesNext(resources, start, order, k, before, ids.ids, maximum);
    NoneFitsLater(resources, order, k, before, ids.ids, maximum);
  }

  /** The first resource of the order that fits into an empty selection. */
  method AddAnchor(ids: SelectedIds, order: seq<Resource>, resources: ResourceMap, maximum: nat)
    returns (anchor: Option<Resource>)
    requires ids.ids == {}
    modifies ids
    ensures Closed(resources, ids.ids) && |ids.ids| <= maximum
    ensures anchor.Some? ==>
              && anchor.value.id in ids.ids
              && IsClosure(resources, anchor.value.id, ids.ids)
              && exists i :: 0 <= i < |order| && order[i] == anchor.value
                   && forall j | 0 <= j < i :: !Fits(resources, {}, order[j].id, maximum)
    ensures anchor.None? ==> ids.ids == {} && forall r | r in order :: !Fits(resources, {}, r.id, maximum)
  {
    var k := 0;
    while k < |order|
      invariant k <= |order|
      invariant ids.ids == {}
      invariant forall j | 0 <= j < k :: !Fits(resources, {}, order[j].id, maximum)
    {
      var added := ids.AddWithScopeDependencies(order[k].id, resources, maximum);
      if added {
        ghost var closure :| IsClosure(resources, order[k].id, closure) && ids.ids == {} + closure
          && |ids.ids| <= maximum;
        assert ids.ids == closure;
        return Some(order[k]);
      }
      k := k + 1;
    }
    return None;
  }

  /** The resources the anchor relates to, best first; relationships to unlisted resources are skipped. */
  function Dimensions(anchor: Resource, resources: ResourceMap, collation: (string, string) -> bool): seq<Resource> {
    Sort(RelatedResources(anchor.relationships, resources), ReviewOrder(collation))
  }

  function RelatedResources(rs: seq<Relationship>, resources: ResourceMap): seq<Resource> {
    if rs == [] then []
    else (if rs[0].target in resources then [resources[rs[0].target]] else []) + RelatedResources(rs[1..], resources)
  }

  lemma {:induction false} RelatedMembers(rs: seq<Relationship>, resources: ResourceMap, r: Resource)
    ensures r in RelatedResources(rs, resources) <==>
      exists x | x in rs :: x.target in resources && resources[x.target] == r
  {
    if rs != [] {
      assert rs == [rs[0]] + rs[1..];
      RelatedMembers(rs[1..], resources, r);
    }
  }

  /** The best resource whose closure fits alone. */
  ghost predicate BestAnchor(draft: seq<Resource>, collation: Collation, anchor: Resource, maximum: nat) {
    && anchor in draft && Fits(ById(draft), {}, anchor.id, maximum)
    && forall r | r in draft && Fits(ById(draft), {}, r.id, maximum) :: Outranks(collation, anchor, r)
  }

  /** The resources that the anchor's relationships lead to, best first. */
  ghost predicate DimensionsOf(draft: seq<Resource>, collation: Collation, anchor: Resource, dimensions: seq<Resource>)
  {
    && BestFirst(collation, dimensions)
    && forall r :: r in dimensions <==>
         exists x | x in anchor.relationships :: x.target in ById(draft) && ById(draft)[x.target] == r
  }

  /** Every resource of the draft once, best first. */
  ghost predicate RankingOf(draft: seq<Resource>, collation: Collation, ranked: seq<Resource>) {
    multiset(ranked) == multiset(draft) && BestFirst(collation, ranked)
  }

  /** From the best anchor's closure on: its dimensions take their turns, and then all resources do. */
  ghost predicate TakenFrom(draft: seq<Resource>, collation: Collation, maximum: nat, anchor: Resource,
                            start: set<string>, dimensions: seq<Resource>, middle: set<string>, ranked: seq<Resource>,
                            selected: set<string>)
  {
    && BestAnchor(draft, collation, anchor, maximum) && IsClosure(ById(draft), anchor.id, start)
    && DimensionsOf(draft, collation, anchor, dimensions) && RankingOf(draft, collation, ranked)
    && TakenInTurn(ById(draft), start, dimensions, |dimensions|, middle, maximum)
    && TakenInTurn(ById(draft), middle, ranked, |ranked|, selected, maximum)
  }

  ghost predicate NothingFitsAlone(draft: seq<Resource>, maximum: nat) {
    forall r | r in draft :: !Fits(ById(draft), {}, r.id, maximum)
  }

  ghost predicate GreedySelection(draft: seq<Resource>, collation: Collation, maximum: nat, selected: set<string>) {
    || (NothingFitsAlone(draft, maximum) && selected == {})
    || exists anchor, start, dimensions, middle, ranked ::
         TakenFrom(draft, collation, maximum, anchor, start, dimensions, middle, ranked, selected)
  }

  lemma FirstFittingIsBest(draft: seq<Resource>, collation: Collation, ranked: seq<Resource>, anchor: Resource, i: nat,
                           maximum: nat)
    requires TotalOrder(collation) && RankingOf(draft, collation, ranked)
    requires i < |ranked| && ranked[i] == anchor && Fits(ById(draft), {}, anchor.id, maximum)
    requires forall j | 0 <= j < i :: !Fits(ById(draft), {}, ranked[j].id, maximum)
    ensures BestAnchor(draft, collation, anchor, maximum)
  {
    MultisetMembers(ranked, draft);
    assert anchor in ranked;
    forall r | r in draft && Fits(ById(draft), {}, r.id, maximum) ensures Outranks(collation, anchor, r) {
      assert r in ranked;
      var j :| 0 <= j < |ranked| && ranked[j] == r;
      assert collation(anchor.id, anchor.id) || collation(anchor.id, anchor.id);
    }
  }

  lemma SortedDimensions(draft: seq<Resource>, collation: Collation, anchor: Resource)
    requires TotalOrder(collation)
    ensures DimensionsOf(draft, collation, anchor, Dimensions(anchor, ById(draft), collation))
  {
    var related := RelatedResources(anchor.relationships, ById(draft));
    SortedBestFirst(related, collation);
    MultisetMembers(Sort(related, ReviewOrder(collation)), related);
    forall r ensures r in related <==>
      exists x | x in anchor.relationships :: x.target in ById(draft) && ById(draft)[x.target] == r
    {
      RelatedMembers(anchor.relationships, ById(draft), r);
    }
  }

  lemma ClosureFits(resources: ResourceMap, id: string, closure: set<string>, maximum: nat)
    requires IsClosure(resources, id, closure) && |closure| <= maximum
    ensures Fits(resources, {}, id, maximum)
  {
    assert {} + closure == closure;
  }

  /** Where nothing fits alone, nothing is taken. */
  lemma {:induction false} NothingTaken(resources: ResourceMap, order: seq<Resource>, k: nat, after: set<string>,
                                        maximum: nat)
    requires k <= |order| && TakenInTurn(resources, {}, order, k, after, maximum)
    requires forall r | r in order :: !Fits(resources, {}, r.id, maximum)
    ensures after == {}
  {
    if k > 0 {
      var mid :| TakenVia(resources, {}, order, k, mid, after, maximum);
      NothingTaken(resources, order, k - 1, mid, maximum);
      assert order[k - 1] in order;
    }
  }

  /**
   The recommended selection: the best anchor that fits, then the anchor's dimensions, then
   everything else in rank order. A draft within the cap is taken whole.
   */
  method RecommendedSelection(draft: seq<Resource>, maximum: nat, collation: (string, string) -> bool)
    returns (selected: set<string>)
    requires DistinctIds(draft) && maximum >= 1
    ensures |draft| <= maximum ==> selected == IdsOf(draft)
    ensures |draft| > maximum ==>
              && |selected| <= maximum
              && Closed(ById(draft), selected)
              && Maximal(ById(draft), selected, maximum)
              && (TotalOrder(collation) ==> GreedySelection(draft, collation, maximum, selected))
  {
    if |draft| <= maximum {
      return IdsOf(draft);
    }
    var resources := ById(draft);
    var ranked := Sort(draft, ReviewOrder(collation));
    MultisetMembers(ranked, draft);
    var ids := new SelectedIds();
    var anchor := AddAnchor(ids, ranked, resources, maximum);
    ghost var start := ids.ids;
    ghost var dimensions: seq<Resource> := [];
    if anchor.Some? {
      dimensions := Dimensions(anchor.value, resources, collation);
      AddEach(ids, Dimensions(anchor.value, resources, collation), resources, maximum);
    }
    ghost var middle := ids.ids;
    AddEach(ids, ranked, resources, maximum);
    selected := ids.ids;
    forall id | id in resources && id !in selected ensures !Fits(resources, selected, id, maximum) {
      assert resources[id] in ranked;
    }
    if TotalOrder(collation) {
      SortedBestFirst(draft, collation);
      if anchor.Some? {
        ClosureFits(resources, anchor.value.id, start, maximum);
        ghost var i :| 0 <= i < |ranked| && ranked[i] == anchor.value
          && forall j | 0 <= j < i :: !Fits(resources, {}, ranked[j].id, maximum);
        FirstFittingIsBest(draft, collation, ranked, anchor.value, i, maximum);
        SortedDimensions(draft, collation, anchor.value);
        assert TakenFrom(draft, collation, maximum, anchor.value, start, dimensions, middle, ranked, selected);
      } else {
        NothingTaken(resources, ranked, |ranked|, selected, maximum);
      }
    }
  }

  // ---- The candidate that keeps a selection

  predicate StaysInside(r: Relationship, ids: set<string>) {
    if r.Links() == [] then r.target in ids
    else forall i | 0 <= i < |r.Links()| :: r.Links()[i].source in ids && r.Links()[i].target in ids
  }

  function KeptInside(ids: set<string>): Relationship -> bool {
    (r: Relationship) => StaysInside(r, ids)
  }

  function Restricted(draft: seq<Resource>, ids: set<string>): (kept: seq<Resource>) {
    if draft == [] then []
    else
      (if draft[0].id in ids
       then [draft[0].(relationships := Filter(draft[0].relationships, KeptInside(ids)))]
       else [])
      + Restricted(draft[1..], ids)
  }

  lemma {:induction false} RestrictedMembers(draft: seq<Resource>, ids: set<string>, r: Resource)
    requires r in Restricted(draft, ids)
    ensures r.id in ids
    ensures exists o | o in draft :: o.id == r.id && r == o.(relationships := Filter(o.relationships, KeptInside(ids)))
  {
    if draft[0].id in ids && r == Restricted(draft, ids)[0] {
      assert draft[0] in draft;
    } else {
      RestrictedMembers(draft[1..], ids, r);
      var o :| o in draft[1..] && o.id == r.id && r == o.(relationships := Filter(o.relationships, KeptInside(ids)));
      assert o in draft;
    }
  }

  lemma {:induction false} LinkEndsMembers(links: seq<Link>, i: nat)
    requires i < |links|
    ensures links[i].source in LinkEnds(links) && links[i].target in LinkEnds(links)
  {
    if i > 0 {
      LinkEndsMembers(links[1..], i - 1);
    }
  }

  ghost predicate PathInside(scope: Option<ScopePath>, ids: set<string>) {
    scope.Some? ==>
      && scope.value.ancestor in ids
      && forall i | 0 <= i < |scope.value.proof.links| ::
           scope.value.proof.links[i].source in ids && scope.value.proof.links[i].target in ids
  }

  lemma DependenciesInside(scope: Option<ScopePath>, ids: set<string>)
    requires forall d | d in ScopeDependencies(scope) :: d in ids
    ensures PathInside(scope, ids)
  {
    if scope.Some? {
      forall i | 0 <= i < |scope.value.proof.links|
        ensures scope.value.proof.links[i].source in ids && scope.value.proof.links[i].target in ids
      {
        LinkEndsMembers(scope.value.proof.links, i);
      }
    }
  }

  /** Nothing a kept resource relies on was left behind: neither scope paths nor relationships. */
  lemma RestrictedIsSelfContained(draft: seq<Resource>, ids: set<string>, r: Resource, rel: Relationship)
    requires DistinctIds(draft) && Closed(ById(draft), ids) && r in Restricted(draft, ids)
    ensures PathInside(r.tenantScope, ids) && PathInside(r.principalScope, ids)
    ensures rel in r.relationships ==> StaysInside(rel, ids)
  {
    RestrictedMembers(draft, ids, r);
    var o :| o in draft && o.id == r.id && r == o.(relationships := Filter(o.relationships, KeptInside(ids)));
    var k :| 0 <= k < |draft| && draft[k] == o;
    ByIdFinds(draft, k);
    forall d | d in Dependencies(o) ensures d in ids {
      assert DependsOn(ById(draft), o.id, d);
    }
    DependenciesInside(r.tenantScope, ids);
    DependenciesInside(r.principalScope, ids);
    FilterMembers(o.relationships, KeptInside(ids));
  }
}
