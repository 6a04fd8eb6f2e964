/**
 The instant selection: its list and its id set always agree, it stays within the cap, and
 what it selects is connected by relationships and scope dependencies.
 */
module InstantSelection {
  import opened Catalog
  import opened Pack
  import opened ScopeClosure
  import opened Selection
  import opened Sequences

  // ---- Connectedness

  predicate AnyTargets(rs: seq<Relationship>, b: string) {
    exists i | 0 <= i < |rs| :: rs[i].target == b
  }

  predicate Relates(resources: ResourceMap, a: string, b: string) {
    a in resources && AnyTargets(resources[a].relationships, b)
  }

  ghost predicate Adjacent(resources: ResourceMap, a: string, b: string) {
    Relates(resources, a, b) || Relates(resources, b, a) || DependsOn(resources, a, b) || DependsOn(resources, b, a)
  }

  ghost predicate Crosses(resources: ResourceMap, inside: set<string>, outside: set<string>) {
    exists a, b :: a in inside && b in outside && Adjacent(resources, a, b)
  }

  /** No part of s is cut off from the rest: every split of s has an edge across it. */
  ghost predicate Connected(resources: ResourceMap, s: set<string>) {
    forall part | part < s && part != {} :: Crosses(resources, part, s - part)
  }

  lemma UnclosedPartCrosses(resources: ResourceMap, root: string, s: set<string>, part: set<string>)
    requires IsClosure(resources, root, s) && part < s && root in part
    ensures Crosses(resources, part, s - part)
  {
    assert !Closed(resources, part);
    var id, d :| id in part && DependsOn(resources, id, d) && d !in part;
    assert d in s;
    assert Adjacent(resources, id, d);
  }

  /** A scope closure is connected through the dependencies that built it. */
  lemma ClosureConnected(resources: ResourceMap, root: string, s: set<string>)
    requires IsClosure(resources, root, s)
    ensures Connected(resources, s)
  {
    forall part | part < s && part != {} ensures Crosses(resources, part, s - part) {
      if root in part {
        UnclosedPartCrosses(resources, root, s, part);
      } else {
        UnclosedPartCrosses(resources, root, s, s - part);
        assert s - (s - part) == part;
        var a, b :| a in s - part && b in part && Adjacent(resources, a, b);
        assert Adjacent(resources, b, a);
      }
    }
  }

  /** A split of s + c that cuts s or c apart has an edge across it. */
  lemma CutInsideCrosses(resources: ResourceMap, s: set<string>, c: set<string>, part: set<string>)
    requires Connected(resources, s) && part <= s + c && part * s != {} && !(s <= part)
    ensures Crosses(resources, part, s + c - part)
  {
    var piece := part * s;
    assert piece < s;
    assert Crosses(resources, piece, s - piece);
    var a, b :| a in piece && b in s - piece && Adjacent(resources, a, b);
    assert a in part && b in s + c - part;
  }

  /** Two connected groups with an edge between them form a connected group. */
  lemma UnionConnected(resources: ResourceMap, s: set<string>, c: set<string>, x: string, y: string)
    requires Connected(resources, s) && Connected(resources, c)
    requires x in c && y in s && Adjacent(resources, x, y)
    ensures Connected(resources, s + c)
  {
    forall part | part < s + c && part != {} ensures Crosses(resources, part, s + c - part) {
      if part * s != {} && !(s <= part) {
        CutInsideCrosses(resources, s, c, part);
      } else if part * c != {} && !(c <= part) {
        CutInsideCrosses(resources, c, s, part);
        assert c + s == s + c;
      } else {
        assert s <= part && c <= part ==> part == s + c;
        assert y in part ==> y in part * s;
        assert x in part ==> x in part * c;
        assert part * s == {} && part * c == {} ==> part == {};
        assert Adjacent(resources, y, x);
      }
    }
  }

  // ---- Growing the selection

  /** The list holds each selected resource of the draft exactly once. */
  ghost predicate Agrees(draft: seq<Resource>, selected: seq<Resource>, ids: set<string>) {
    && DistinctIds(selected)
    && IdsOf(selected) == ids
    && forall r | r in selected :: r in draft
  }

  lemma IdsOfAppend(rs: seq<Resource>, r: Resource)
    ensures IdsOf(rs + [r]) == IdsOf(rs) + {r.id}
  {
    assert forall x :: x in rs + [r] <==> x in rs || x == r;
  }

  function ArrivedWith(first: Resource, ids: set<string>, previous: set<string>): Resource -> bool {
    (r: Resource) => r.id != first.id && r.id in ids && r.id !in previous
  }

  /** What adding `first` brought in: first itself unless it was there, then the rest in draft order. */
  function Brought(draft: seq<Resource>, first: Resource, previous: set<string>, ids: set<string>): seq<Resource> {
    (if first.id in previous then [] else [first]) + Filter(draft, ArrivedWith(first, ids, previous))
  }

  lemma DistinctInDraft(draft: seq<Resource>, rs: seq<Resource>)
    requires DistinctIds(draft) && NoDuplicates(rs) && forall r | r in rs :: r in draft
    ensures DistinctIds(rs)
  {
    forall i, j | 0 <= i < j < |rs| ensures rs[i].id != rs[j].id {
      SameIdSameResource(draft, rs[i], rs[j]);
    }
  }

  lemma SameIdSameResource(draft: seq<Resource>, a: Resource, b: Resource)
    requires DistinctIds(draft) && a in draft && b in draft
    ensures a.id == b.id ==> a == b
  {
    var i :| 0 <= i < |draft| && draft[i] == a;
    var j :| 0 <= j < |draft| && draft[j] == b;
  }

  lemma DistinctIdsDuplicateFree(rs: seq<Resource>)
    requires DistinctIds(rs)
    ensures NoDuplicates(rs)
  {
    forall i, j | 0 <= i < j < |rs| ensures rs[i] != rs[j] {
      assert rs[i].id != rs[j].id;
    }
  }

  lemma BroughtMembers(draft: seq<Resource>, first: Resource, previous: set<string>, ids: set<string>, r: Resource)
    requires DistinctIds(draft) && first in draft && first.id in ids
    ensures r in Brought(draft, first, previous, ids) <==> r in draft && r.id in ids && r.id !in previous
  {
    FilterMembers(draft, ArrivedWith(first, ids, previous));
    if r in draft {
      SameIdSameResource(draft, first, r);
    }
  }

  lemma BroughtDuplicateFree(draft: seq<Resource>, first: Resource, previous: set<string>, ids: set<string>)
    requires DistinctIds(draft)
    ensures NoDuplicates(Brought(draft, first, previous, ids))
  {
    var arrived := Filter(draft, ArrivedWith(first, ids, previous));
    DistinctIdsDuplicateFree(draft);
    FilterDuplicateFree(draft, ArrivedWith(first, ids, previous));
    FilterMembers(draft, ArrivedWith(first, ids, previous));
    if first.id !in previous {
      ConcatenationDuplicateFree([first], arrived);
    }
  }

  /** With what was brought in, the list agrees with the larger id set. */
  lemma BroughtAgrees(draft: seq<Resource>, selected: seq<Resource>, first: Resource, previous: set<string>,
                      ids: set<string>)
    requires DistinctIds(draft) && first in draft && first.id in ids
    requires Agrees(draft, selected, previous) && previous <= ids <= IdsOf(draft)
    ensures Agrees(draft, selected + Brought(draft, first, previous, ids), ids)
  {
    var brought := Brought(draft, first, previous, ids);
    forall r ensures r in brought <==> r in draft && r.id in ids && r.id !in previous {
      BroughtMembers(draft, first, previous, ids, r);
    }
    BroughtDuplicateFree(draft, first, previous, ids);
    DistinctIdsDuplicateFree(selected);
    forall r | r in selected ensures r !in brought {
      assert r.id in IdsOf(selected);
    }
    ConcatenationDuplicateFree(selected, brought);
    DistinctInDraft(draft, selected + brought);
    BroughtIds(draft, selected, brought, previous, ids);
  }

  lemma BroughtIds(draft: seq<Resource>, selected: seq<Resource>, brought: seq<Resource>, previous: set<string>,
                   ids: set<string>)
    requires IdsOf(selected) == previous && previous <= ids <= IdsOf(draft)
    requires forall r :: r in brought <==> r in draft && r.id in ids && r.id !in previous
    ensures IdsOf(selected + brought) == ids
  {
    forall id | id in ids ensures id in IdsOf(selected + brought) {
      if id in previous {
        var r :| r in selected && r.id == id;
        assert r in selected + brought;
      } else {
        var r :| r in draft && r.id == id;
        assert r in brought && r in selected + brought;
      }
    }
  }

  /** Appends to the list what adding `first` put into the id set: first itself, then the rest in draft order. */
  method AppendNew(draft: seq<Resource>, first: Resource, selected: seq<Resource>, previous: set<string>,
                   ids: set<string>)
    returns (out: seq<Resource>)
    requires DistinctIds(draft) && first in draft && first.id in ids
    requires Agrees(draft, selected, previous) && previous <= ids <= IdsOf(draft)
    ensures Agrees(draft, out, ids)
    ensures out == selected + Brought(draft, first, previous, ids)
  {
    var rest: seq<Resource> := [];
    for k := 0 to |draft|
      invariant rest == Filter(draft[..k], ArrivedWith(first, ids, previous))
    {
      FilterGrows(draft, k, ArrivedWith(first, ids, previous));
      if draft[k].id != first.id && draft[k].id in ids && draft[k].id !in previous {
        rest := rest + [draft[k]];
      }
    }
    assert draft[..|draft|] == draft;
    out := selected + ((if first.id in previous then [] else [first]) + rest);
    BroughtAgrees(draft, selected, first, previous, ids);
  }

  /** Within the cap, closed under scope dependencies, and in one piece. */
  ghost predicate GoodIds(resources: ResourceMap, ids: set<string>, maximum: nat) {
    |ids| <= maximum && Closed(resources, ids) && Connected(resources, ids)
  }

  ghost predicate Attached(resources: ResourceMap, ids: set<string>, id: string) {
    ids == {} || exists y | y in ids :: Adjacent(resources, id, y)
  }

  /** A closure that is attached to a good selection extends it to a good selection. */
  lemma GoodIdsGrow(resources: ResourceMap, ids: set<string>, id: string, closure: set<string>, maximum: nat)
    requires GoodIds(resources, ids, maximum) && Attached(resources, ids, id)
    requires IsClosure(resources, id, closure) && |ids + closure| <= maximum
    ensures GoodIds(resources, ids + closure, maximum)
  {
    ClosedUnion(resources, ids, closure);
    ClosureConnected(resources, id, closure);
    if ids == {} {
      assert ids + closure == closure;
    } else {
      var y :| y in ids && Adjacent(resources, id, y);
      UnionConnected(resources, ids, closure, id, y);
    }
  }

  lemma EmptyIsGood(resources: ResourceMap, maximum: nat)
    ensures GoodIds(resources, {}, maximum)
  {
  }

  /** The selection grew by r and everything its scopes depend on, and by nothing else. */
  ghost predicate JoinsWith(resources: ResourceMap, before: set<string>, after: set<string>, r: Resource) {
    exists closure :: IsClosure(resources, r.id, closure) && after == before + closure
  }

  /** Adds a resource with its closure to both the list and the id set. */
  method AppendWithScopeDependencies(draft: seq<Resource>, resources: ResourceMap, ids: SelectedIds,
                                     selected: seq<Resource>, r: Resource, maximum: nat)
    returns (added: bool, out: seq<Resource>)
    requires DistinctIds(draft) && r in draft && resources.Keys == IdsOf(draft)
    requires Agrees(draft, selected, ids.ids) && GoodIds(resources, ids.ids, maximum)
      && Attached(resources, ids.ids, r.id)
    modifies ids
    ensures Agrees(draft, out, ids.ids) && GoodIds(resources, ids.ids, maximum)
    ensures added <==> Fits(resources, old(ids.ids), r.id, maximum)
    ensures added ==> old(ids.ids) + {r.id} <= ids.ids && JoinsWith(resources, old(ids.ids), ids.ids, r)
    ensures added ==> out == selected + Brought(draft, r, old(ids.ids), ids.ids)
    ensures !added ==> ids.ids == old(ids.ids) && out == selected
  {
    ghost var before := ids.ids;
    var previous := ids.ids;
    added := ids.AddWithScopeDependencies(r.id, resources, maximum);
    if !added {
      return false, selected;
    }
    ghost var closure :| IsClosure(resources, r.id, closure) && ids.ids == before + closure && |ids.ids| <= maximum;
    GoodIdsGrow(resources, before, r.id, closure, maximum);
    out := AppendNew(draft, r, selected, previous, ids.ids);
  }

  // ---- Choosing the next resource

  function TargetsSelected(ids: set<string>): Relationship -> bool {
    (rel: Relationship) => rel.target in ids
  }

  predicate RelatesTo(r: Resource, id: string) {
    AnyTargets(r.relationships, id)
  }

  function SelectedRelatingTo(ids: set<string>, id: string): Resource -> bool {
    (r: Resource) => r.id in ids && RelatesTo(r, id)
  }

  /** Relationships into the selection, plus selected eligible resources that relate to the candidate. */
  function RelationshipConnections(candidate: Resource, ids: set<string>, eligible: seq<Resource>): nat {
    |Filter(candidate.relationships, TargetsSelected(ids))| + |Filter(eligible, SelectedRelatingTo(ids, candidate.id))|
  }

  /** A counted connection is an edge to something selected. */
  lemma ConnectionIsEdge(draft: seq<Resource>, eligible: seq<Resource>, candidate: Resource, ids: set<string>)
    requires DistinctIds(draft) && candidate in draft && (forall r | r in eligible :: r in draft)
    requires RelationshipConnections(candidate, ids, eligible) > 0
    ensures Attached(ById(draft), ids, candidate.id)
  {
    var k :| 0 <= k < |draft| && draft[k] == candidate;
    ByIdFinds(draft, k);
    var outgoing := Filter(candidate.relationships, TargetsSelected(ids));
    var incoming := Filter(eligible, SelectedRelatingTo(ids, candidate.id));
    FilterMembers(candidate.relationships, TargetsSelected(ids));
    FilterMembers(eligible, SelectedRelatingTo(ids, candidate.id));
    if |outgoing| > 0 {
      var rel := outgoing[0];
      assert rel in outgoing && rel in candidate.relationships;
      var i :| 0 <= i < |candidate.relationships| && candidate.relationships[i] == rel;
      assert Relates(ById(draft), candidate.id, rel.target);
      assert Adjacent(ById(draft), candidate.id, rel.target);
    } else {
      var r := incoming[0];
      assert r in incoming && r in draft;
      var j :| 0 <= j < |draft| && draft[j] == r;
      ByIdFinds(draft, j);
      assert Relates(ById(draft), r.id, candidate.id);
      assert Adjacent(ById(draft), candidate.id, r.id);
    }
  }

  predicate GrowthLe(ids: set<string>, eligible: seq<Resource>, collation: (string, string) -> bool, a: Resource,
                     b: Resource)
  {
    var sa, sb := ReviewScore(a), ReviewScore(b);
    var ca, cb := RelationshipConnections(a, ids, eligible), RelationshipConnections(b, ids, eligible);
    sa > sb || (sa == sb && (ca > cb || (ca == cb && collation(a.id, b.id))))
  }

  function GrowthOrder(ids: set<string>, eligible: seq<Resource>, collation: (string, string) -> bool): (Resource,
      Resource) -> bool
  {
    (a: Resource, b: Resource) => GrowthLe(ids, eligible, collation, a, b)
  }

  function Attachable(ids: set<string>, eligible: seq<Resource>): Resource -> bool {
    (r: Resource) => r.id !in ids && RelationshipConnections(r, ids, eligible) > 0
  }

  function TenantOnly(): Resource -> bool {
    (r: Resource) => r.principalKey.None? && r.principalScope.None?
  }

  function Eligible(draft: seq<Resource>): seq<Resource> {
    var tenantOnly := Filter(draft, TenantOnly());
    if |tenantOnly| > 0 then tenantOnly else draft
  }

  lemma EligibleInDraft(draft: seq<Resource>)
    ensures forall r | r in Eligible(draft) :: r in draft
  {
    FilterMembers(draft, TenantOnly());
  }

  ghost predicate Joinable(draft: seq<Resource>, resources: ResourceMap, ids: set<string>, r: Resource) {
    r in draft && r.id !in ids && Attached(resources, ids, r.id)
  }

  /** The list agrees with the id set, and the id set is closed, connected and within the cap. */
  ghost predicate Sound(draft: seq<Resource>, resources: ResourceMap, selected: seq<Resource>, ids: set<string>,
                        maximum: nat)
  {
    Agrees(draft, selected, ids) && GoodIds(resources, ids, maximum)
  }

  ghost predicate NoneFit(resources: ResourceMap, ids: set<string>, candidates: seq<Resource>, n: nat, maximum: nat)
    requires n <= |candidates|
  {
    forall i | 0 <= i < n :: !Fits(resources, ids, candidates[i].id, maximum)
  }

  lemma OneMoreDoesNotFit(resources: ResourceMap, ids: set<string>, candidates: seq<Resource>, n: nat, maximum: nat)
    requires n < |candidates| && NoneFit(resources, ids, candidates, n, maximum)
      && !Fits(resources, ids, candidates[n].id, maximum)
    ensures NoneFit(resources, ids, candidates, n + 1, maximum)
  {
  }

  /** Candidate k was added, after none before it fitted. */
  ghost predicate Added(resources: ResourceMap, before: set<string>, after: set<string>, candidates: seq<Resource>,
                        k: nat, maximum: nat)
  {
    k < |candidates| && NoneFit(resources, before, candidates, k, maximum)
      && Fits(resources, before, candidates[k].id, maximum) && JoinsWith(resources, before, after, candidates[k])
  }

  ghost predicate FirstFitting(resources: ResourceMap, before: set<string>, after: set<string>,
                               candidates: seq<Resource>, maximum: nat)
  {
    exists k: nat :: Added(resources, before, after, candidates, k, maximum)
  }

  method TryJoin(draft: seq<Resource>, resources: ResourceMap, ids: SelectedIds, selected: seq<Resource>, r: Resource,
                 maximum: nat)
    returns (added: bool, out: seq<Resource>)
    requires DistinctIds(draft) && resources.Keys == IdsOf(draft)
    requires Sound(draft, resources, selected, ids.ids, maximum) && Joinable(draft, resources, ids.ids, r)
    modifies ids
    ensures Sound(draft, resources, out, ids.ids, maximum)
    ensures if added then old(ids.ids) < ids.ids && JoinsWith(resources, old(ids.ids), ids.ids, r)
            else ids.ids == old(ids.ids) && out == selected
    ensures added <==> Fits(resources, old(ids.ids), r.id, maximum)
    ensures added ==> out == selected + Brought(draft, r, old(ids.ids), ids.ids)
  {
    added, out := AppendWithScopeDependencies(draft, resources, ids, selected, r, maximum);
    assert added ==> r.id in ids.ids;
  }

  /** Adds the first of the candidates that fits. */
  method AddFirst(draft: seq<Resource>, resources: ResourceMap, ids: SelectedIds, selected: seq<Resource>,
                  candidates: seq<Resource>, maximum: nat)
    returns (added: bool, out: seq<Resource>, ghost taken: nat)
    requires DistinctIds(draft) && resources.Keys == IdsOf(draft)
    requires Sound(draft, resources, selected, ids.ids, maximum)
    requires forall i | 0 <= i < |candidates| :: Joinable(draft, resources, ids.ids, candidates[i])
    modifies ids
    ensures Sound(draft, resources, out, ids.ids, maximum)
    ensures added ==> Added(resources, old(ids.ids), ids.ids, candidates, taken, maximum)
    ensures if added then out == selected + Brought(draft, candidates[taken], old(ids.ids), ids.ids)
      else out == selected
    ensures if added then
              old(ids.ids) < ids.ids && FirstFitting(resources, old(ids.ids), ids.ids, candidates, maximum)
            else ids.ids == old(ids.ids) && NoneFit(resources, ids.ids, candidates, |candidates|, maximum)
  {
    added, out, taken := false, selected, 0;
    ghost var start := ids.ids;
    var k := 0;
    while k < |candidates|
      invariant k <= |candidates|
      invariant ids.ids == start && out == selected && !added
      invariant NoneFit(resources, start, candidates, k, maximum)
    {
      added, out := TryJoin(draft, resources, ids, out, candidates[k], maximum);
      if added {
        taken := k;
        assert Added(resources, start, ids.ids, candidates, k, maximum);
        return;
      }
      OneMoreDoesNotFit(resources, start, candidates, k, maximum);
      k := k + 1;
    }
  }

  lemma SortedMembers(xs: seq<Resource>, le: (Resource, Resource) -> bool)
    ensures forall r :: r in Sort(xs, le) <==> r in xs
  {
    MultisetMembers(Sort(xs, le), xs);
  }

  // ---- Which one is next

  /** How many relationships lead from the candidate into the selection, and how many eligible selected lead to it. */
  ghost function Connections(candidate: Resource, ids: set<string>, eligible: seq<Resource>): nat {
    |set i | 0 <= i < |candidate.relationships| && candidate.relationships[i].target in ids|
    + |set j | 0 <= j < |eligible| && eligible[j].id in ids && LeadsTo(eligible[j], candidate.id)|
  }

  ghost predicate LeadsTo(r: Resource, id: string) {
    exists x | x in r.relationships :: x.target == id
  }

  function Positions<T>(xs: seq<T>, keep: T -> bool): set<int> {
    set i | 0 <= i < |xs| && keep(xs[i])
  }

  lemma PositionsNext<T>(xs: seq<T>, keep: T -> bool)
    requires xs != []
    ensures
      var n := |xs| - 1;
      Positions(xs, keep) == Positions(xs[..n], keep) + (if keep(xs[n]) then {n} else {})
  {
  }

  lemma {:induction false} FilterCounts<T>(xs: seq<T>, keep: T -> bool)
    ensures |Filter(xs, keep)| == |Positions(xs, keep)|
  {
    if xs != [] {
      FilterCounts(xs[..|xs| - 1], keep);
      PositionsNext(xs, keep);
    }
  }

  lemma CountedOutgoing(candidate: Resource, ids: set<string>)
    ensures |Filter(candidate.relationships, TargetsSelected(ids))|
         == |set i | 0 <= i < |candidate.relationships| && candidate.relationships[i].target in ids|
  {
    FilterCounts(candidate.relationships, TargetsSelected(ids));
    assert Positions(candidate.relationships, TargetsSelected(ids))
      == set i | 0 <= i < |candidate.relationships| && candidate.relationships[i].target in ids;
  }

  lemma CountedIncoming(id: string, ids: set<string>, eligible: seq<Resource>)
    ensures |Filter(eligible, SelectedRelatingTo(ids, id))|
         == |set j | 0 <= j < |eligible| && eligible[j].id in ids && LeadsTo(eligible[j], id)|
  {
    FilterCounts(eligible, SelectedRelatingTo(ids, id));
    forall j | 0 <= j < |eligible|
      ensures SelectedRelatingTo(ids, id)(eligible[j]) <==> eligible[j].id in ids && LeadsTo(eligible[j], id)
    {
      LeadsWhereRelated(eligible[j], id);
    }
    assert Positions(eligible, SelectedRelatingTo(ids, id))
      == set j | 0 <= j < |eligible| && eligible[j].id in ids && LeadsTo(eligible[j], id);
  }

  lemma CountedConnections(candidate: Resource, ids: set<string>, eligible: seq<Resource>)
    ensures RelationshipConnections(candidate, ids, eligible) == Connections(candidate, ids, eligible)
  {
    CountedOutgoing(candidate, ids);
    CountedIncoming(candidate.id, ids, eligible);
  }

  lemma LeadsWhereRelated(r: Resource, id: string)
    ensures RelatesTo(r, id) <==> LeadsTo(r, id)
  {
    if LeadsTo(r, id) {
      var x :| x in r.relationships && x.target == id;
      var i :| 0 <= i < |r.relationships| && r.relationships[i] == x;
    }
    if RelatesTo(r, id) {
      var i :| 0 <= i < |r.relationships| && r.relationships[i].target == id;
      assert r.relationships[i] in r.relationships;
    }
  }

  /** Open to the instant selection: resources without a principal scope, or all where each has one. */
  ghost predicate EligibleIn(draft: seq<Resource>, r: Resource) {
    r in draft && (WithoutPrincipal(r) || forall x | x in draft :: !WithoutPrincipal(x))
  }

  predicate WithoutPrincipal(r: Resource) {
    r.principalKey == None && r.principalScope == None
  }

  lemma EligibleMeans(draft: seq<Resource>, r: Resource)
    ensures r in Eligible(draft) <==> EligibleIn(draft, r)
  {
    FilterMembers(draft, TenantOnly());
    var tenantOnly := Filter(draft, TenantOnly());
    if |tenantOnly| > 0 {
      assert tenantOnly[0] in tenantOnly;
    }
    forall x | x in draft ensures WithoutPrincipal(x) <==> x in tenantOnly {
    }
  }

  /** Worth more, better connected, or with an id no later, in this order. */
  ghost predicate GrowsBefore(collation: Collation, ids: set<string>, eligible: seq<Resource>, a: Resource, b: Resource)
  {
    var wa, wb := ReviewWorth(a), ReviewWorth(b);
    var ca, cb := Connections(a, ids, eligible), Connections(b, ids, eligible);
    wa > wb || (wa == wb && (ca > cb || (ca == cb && collation(a.id, b.id))))
  }

  lemma GrowthMeans(collation: Collation, ids: set<string>, eligible: seq<Resource>, a: Resource, b: Resource)
    ensures GrowthLe(ids, eligible, collation, a, b) <==> GrowsBefore(collation, ids, eligible, a, b)
  {
    ScoreIsWorth(a);
    ScoreIsWorth(b);
    CountedConnections(a, ids, eligible);
    CountedConnections(b, ids, eligible);
  }

  lemma GrowthOrderIsPreorder(ids: set<string>, eligible: seq<Resource>, collation: Collation)
    requires TotalOrder(collation)
    ensures TotalPreorder(GrowthOrder(ids, eligible, collation))
  {
    var le := GrowthOrder(ids, eligible, collation);
    forall x, y ensures le(x, y) || le(y, x) {
      assert GrowthLe(ids, eligible, collation, x, y) || GrowthLe(ids, eligible, collation, y, x);
    }
    forall x, y, z | le(x, y) && le(y, z) ensures le(x, z) {
      assert GrowthLe(ids, eligible, collation, x, y) && GrowthLe(ids, eligible, collation, y, z);
      assert GrowthLe(ids, eligible, collation, x, z);
    }
  }

  /** Eligible, not selected, connected to the selection, and fitting beside it. */
  ghost predicate MayJoin(draft: seq<Resource>, ids: set<string>, r: Resource, maximum: nat) {
    && EligibleIn(draft, r) && r.id !in ids && Connections(r, ids, Eligible(draft)) > 0
    && Fits(ById(draft), ids, r.id, maximum)
  }

  /** r is the first of those that may join. */
  ghost predicate JoinsNext(draft: seq<Resource>, collation: Collation, ids: set<string>, r: Resource, maximum: nat) {
    && MayJoin(draft, ids, r, maximum)
    && forall x | MayJoin(draft, ids, x, maximum) :: GrowsBefore(collation, ids, Eligible(draft), r, x)
  }

  /** r is the best eligible resource that fits alone. */
  ghost predicate StartsWith(draft: seq<Resource>, collation: Collation, r: Resource, maximum: nat) {
    && EligibleIn(draft, r) && Fits(ById(draft), {}, r.id, maximum)
    && forall x | EligibleIn(draft, x) && Fits(ById(draft), {}, x.id, maximum) :: Outranks(collation, r, x)
  }

  /** A selection on its way: its ids and the list of its resources. */
  datatype Stage = Stage(ids: set<string>, list: seq<Resource>)

  /** r joins with its scope closure, and the list gains what that brought in. */
  ghost predicate Joins(draft: seq<Resource>, before: Stage, r: Resource, after: Stage) {
    JoinsWith(ById(draft), before.ids, after.ids, r)
    && after.list == before.list + Brought(draft, r, before.ids, after.ids)
  }

  /** Every stage comes from the one before by the resource whose turn it is. */
  ghost predicate Growth(draft: seq<Resource>, collation: Collation, stages: seq<Stage>, maximum: nat) {
    && stages != [] && stages[0] == Stage({}, [])
    && forall k | 0 <= k < |stages| - 1 :: GrowthStep(draft, collation, stages[k], stages[k + 1], maximum)
  }

  ghost predicate GrowthStep(draft: seq<Resource>, collation: Collation, before: Stage, after: Stage, maximum: nat) {
    exists r :: Joins(draft, before, r, after)
      && if before.ids == {} then StartsWith(draft, collation, r, maximum)
         else JoinsNext(draft, collation, before.ids, r, maximum)
  }

  /** Nothing eligible that is attached to the selection could still be added. */
  ghost predicate GrowthExhausted(draft: seq<Resource>, ids: set<string>, maximum: nat) {
    || |ids| >= maximum
    || forall r | r in Eligible(draft) && Attachable(ids, Eligible(draft))(r) :: !Fits(ById(draft), ids, r.id, maximum)
  }

  /** The eligible resources that the current selection is connected to, in growth order. */
  method AttachableCandidates(draft: seq<Resource>, ranked: seq<Resource>, ids: set<string>,
                              collation: (string, string) -> bool)
    returns (candidates: seq<Resource>)
    requires DistinctIds(draft) && forall r :: r in ranked <==> r in Eligible(draft)
    ensures forall r :: r in candidates <==> r in Eligible(draft) && Attachable(ids, Eligible(draft))(r)
    ensures forall i | 0 <= i < |candidates| ::
              candidates[i] in draft && candidates[i].id !in ids && Attached(ById(draft), ids, candidates[i].id)
    ensures TotalOrder(collation) ==> Sorted(candidates, GrowthOrder(ids, Eligible(draft), collation))
  {
    var eligible := Eligible(draft);
    var attachable := Filter(ranked, Attachable(ids, eligible));
    FilterMembers(ranked, Attachable(ids, eligible));
    candidates := Sort(attachable, GrowthOrder(ids, eligible, collation));
    SortedMembers(attachable, GrowthOrder(ids, eligible, collation));
    if TotalOrder(collation) {
      GrowthOrderIsPreorder(ids, eligible, collation);
      SortSorted(attachable, GrowthOrder(ids, eligible, collation));
    }
    EligibleInDraft(draft);
    forall i | 0 <= i < |candidates|
      ensures candidates[i] in draft && candidates[i].id !in ids && Attached(ById(draft), ids, candidates[i].id)
    {
      assert candidates[i] in candidates;
      ConnectionIsEdge(draft, eligible, candidates[i], ids);
    }
  }

  lemma FirstOfSortedGrows(draft: seq<Resource>, collation: Collation, ids: set<string>, candidates: seq<Resource>,
                           k: nat, maximum: nat)
    requires TotalOrder(collation) && k < |candidates|
    requires Sorted(candidates, GrowthOrder(ids, Eligible(draft), collation))
    requires forall r :: r in candidates <==> r in Eligible(draft) && Attachable(ids, Eligible(draft))(r)
    requires NoneFit(ById(draft), ids, candidates, k, maximum) && Fits(ById(draft), ids, candidates[k].id, maximum)
    ensures JoinsNext(draft, collation, ids, candidates[k], maximum)
  {
    var r, eligible := candidates[k], Eligible(draft);
    assert r in candidates;
    EligibleMeans(draft, r);
    CountedConnections(r, ids, eligible);
    forall x | MayJoin(draft, ids, x, maximum) ensures GrowsBefore(collation, ids, eligible, r, x) {
      EligibleMeans(draft, x);
      CountedConnections(x, ids, eligible);
      assert x in candidates;
      var j :| 0 <= j < |candidates| && candidates[j] == x;
      GrowthMeans(collation, ids, eligible, r, x);
      if k < j {
        assert GrowthOrder(ids, eligible, collation)(candidates[k], candidates[j]);
      } else {
        assert j == k;
        assert collation(r.id, r.id) || collation(r.id, r.id);
      }
    }
  }

  lemma FirstOfRankedStarts(draft: seq<Resource>, collation: Collation, ranked: seq<Resource>, k: nat, maximum: nat)
    requires TotalOrder(collation) && k < |ranked| && BestFirst(collation, ranked)
    requires forall r :: r in ranked <==> r in Eligible(draft)
    requires NoneFit(ById(draft), {}, ranked, k, maximum) && Fits(ById(draft), {}, ranked[k].id, maximum)
    ensures StartsWith(draft, collation, ranked[k], maximum)
  {
    assert ranked[k] in ranked;
    EligibleMeans(draft, ranked[k]);
    forall x | EligibleIn(draft, x) && Fits(ById(draft), {}, x.id, maximum) ensures Outranks(collation, ranked[k], x) {
      EligibleMeans(draft, x);
      assert x in ranked;
      var j :| 0 <= j < |ranked| && ranked[j] == x;
      assert j >= k;
      assert collation(x.id, x.id) || collation(x.id, x.id);
    }
  }

  /** The stages so far end with the current list and ids. */
  ghost predicate GrownTo(draft: seq<Resource>, collation: Collation, stages: seq<Stage>, list: seq<Resource>,
                          ids: set<string>, maximum: nat)
  {
    stages != [] && stages[|stages| - 1] == Stage(ids, list)
    && (TotalOrder(collation) ==> Growth(draft, collation, stages, maximum))
  }

  lemma GrowthOneMore(draft: seq<Resource>, collation: Collation, stages: seq<Stage>, next: Stage, maximum: nat)
    requires Growth(draft, collation, stages, maximum)
    requires GrowthStep(draft, collation, stages[|stages| - 1], next, maximum)
    ensures Growth(draft, collation, stages + [next], maximum)
  {
    var more := stages + [next];
    forall k | 0 <= k < |more| - 1 ensures GrowthStep(draft, collation, more[k], more[k + 1], maximum) {
      if k < |stages| - 1 {
        assert GrowthStep(draft, collation, stages[k], stages[k + 1], maximum);
      }
    }
  }

  lemma GrowthExtends(draft: seq<Resource>, collation: Collation, stages: seq<Stage>, list: seq<Resource>,
                      ids: set<string>, next: Stage, r: Resource, maximum: nat)
    requires GrownTo(draft, collation, stages, list, ids, maximum) && Joins(draft, Stage(ids, list), r, next)
    requires TotalOrder(collation) ==>
      if ids == {} then StartsWith(draft, collation, r, maximum) else JoinsNext(draft, collation, ids, r, maximum)
    ensures GrownTo(draft, collation, stages + [next], next.list, next.ids, maximum)
  {
    if TotalOrder(collation) {
      assert GrowthStep(draft, collation, Stage(ids, list), next, maximum);
      GrowthOneMore(draft, collation, stages, next, maximum);
    }
  }

  /** The first resource of the selection, with its closure. */
  method StartSelection(draft: seq<Resource>, ids: SelectedIds, ranked: seq<Resource>, maximum: nat,
                        collation: Collation)
    returns (anchored: bool, list: seq<Resource>, ghost stages: seq<Stage>)
    requires DistinctIds(draft) && ids.ids == {} && ranked == Sort(Eligible(draft), ReviewOrder(collation))
    modifies ids
    ensures Sound(draft, ById(draft), list, ids.ids, maximum)
    ensures GrownTo(draft, collation, stages, list, ids.ids, maximum)
    ensures !anchored ==> ids.ids == {} && forall r | r in Eligible(draft) :: !Fits(ById(draft), {}, r.id, maximum)
    ensures anchored ==> ids.ids != {}
  {
    SortedMembers(Eligible(draft), ReviewOrder(collation));
    EligibleInDraft(draft);
    EmptyIsGood(ById(draft), maximum);
    assert Agrees(draft, [], {});
    forall i | 0 <= i < |ranked| ensures ranked[i] in draft {
      assert ranked[i] in ranked;
    }
    stages := [Stage({}, [])];
    assert GrownTo(draft, collation, stages, [], {}, maximum);
    ghost var k;
    anchored, list, k := AddFirst(draft, ById(draft), ids, [], ranked, maximum);
    if anchored {
      if TotalOrder(collation) {
        SortedBestFirst(Eligible(draft), collation);
        FirstOfRankedStarts(draft, collation, ranked, k, maximum);
      }
      GrowthExtends(draft, collation, stages, [], {}, Stage(ids.ids, list), ranked[k], maximum);
      stages := stages + [Stage(ids.ids, list)];
    }
  }

  /** One more resource joins, with its closure, if any may. */
  method GrowSelection(draft: seq<Resource>, ids: SelectedIds, ranked: seq<Resource>, selected: seq<Resource>,
                       maximum: nat, collation: Collation, ghost before: seq<Stage>)
    returns (growing: bool, list: seq<Resource>, ghost stages: seq<Stage>)
    requires DistinctIds(draft) && (forall r :: r in ranked <==> r in Eligible(draft))
    requires Sound(draft, ById(draft), selected, ids.ids, maximum)
    requires ids.ids != {} && GrownTo(draft, collation, before, selected, ids.ids, maximum)
    modifies ids
    ensures Sound(draft, ById(draft), list, ids.ids, maximum)
    ensures GrownTo(draft, collation, stages, list, ids.ids, maximum)
    ensures if growing then old(ids.ids) < ids.ids
      else ids.ids == old(ids.ids) && GrowthExhausted(draft, ids.ids, maximum)
  {
    var current := ids.ids;
    stages := before;
    var candidates := AttachableCandidates(draft, ranked, current, collation);
    ghost var k;
    growing, list, k := AddFirst(draft, ById(draft), ids, selected, candidates, maximum);
    if growing {
      if TotalOrder(collation) {
        FirstOfSortedGrows(draft, collation, current, candidates, k, maximum);
      }
      GrowthExtends(draft, collation, before, selected, current, Stage(ids.ids, list), candidates[k], maximum);
      stages := before + [Stage(ids.ids, list)];
    }
  }

  /** The instant selection of a draft. */
  method InstantLocalSelection(draft: seq<Resource>, collation: (string, string) -> bool)
    returns (selected: seq<Resource>, chosen: set<string>, ghost stages: seq<Stage>)
    requires DistinctIds(draft)
    ensures Agrees(draft, selected, chosen)
    ensures |selected| == |chosen| <= Min(INSTANT_BOUNDARY_RESOURCE_LIMIT, |draft|)
    ensures Closed(ById(draft), chosen) && Connected(ById(draft), chosen)
    ensures GrowthExhausted(draft, chosen, Min(INSTANT_BOUNDARY_RESOURCE_LIMIT, |draft|))
    ensures GrownTo(draft, collation, stages, selected, chosen, Min(5, |draft|))
    ensures chosen == {} ==> forall r | r in Eligible(draft) :: !Fits(ById(draft), {}, r.id, Min(5, |draft|))
  {
    var maximum := Min(INSTANT_BOUNDARY_RESOURCE_LIMIT, |draft|);
    var ranked := Sort(Eligible(draft), ReviewOrder(collation));
    SortedMembers(Eligible(draft), ReviewOrder(collation));
    var ids := new SelectedIds();
    var growing, list;
    growing, list, stages := StartSelection(draft, ids, ranked, maximum, collation);
    ghost var nothingFits := !growing;
    if nothingFits {
      NothingAttachedToNothing(draft, maximum);
    }
    while growing && |ids.ids| < maximum
      invariant Sound(draft, ById(draft), list, ids.ids, maximum)
      invariant GrownTo(draft, collation, stages, list, ids.ids, maximum)
      invariant growing ==> ids.ids != {}
      invariant ids.ids == {} ==> nothingFits
      invariant !growing ==> GrowthExhausted(draft, ids.ids, maximum)
      decreases growing, maximum - |ids.ids|
    {
      var current := ids.ids;
      growing, list, stages := GrowSelection(draft, ids, ranked, list, maximum, collation, stages);
      SubsetCardinality(current, ids.ids);
    }
    selected, chosen := list, ids.ids;
    DistinctCount(selected);
  }

  /** Nothing is connected to an empty selection. */
  lemma NothingAttachedToNothing(draft: seq<Resource>, maximum: nat)
    ensures GrowthExhausted(draft, {}, maximum)
  {
    forall r | r in Eligible(draft) && Attachable({}, Eligible(draft))(r) ensures false {
      FilterNone(r.relationships, TargetsSelected({}));
      FilterNone(Eligible(draft), SelectedRelatingTo({}, r.id));
    }
  }

  lemma {:induction false} DistinctCount(rs: seq<Resource>)
    requires DistinctIds(rs)
    ensures |IdsOf(rs)| == |rs|
  {
    if rs != [] {
      var init, last := rs[..|rs| - 1], rs[|rs| - 1];
      assert rs == init + [last];
      IdsOfAppend(init, last);
      DistinctCount(init);
      forall r | r in init ensures r.id != last.id {
        var i :| 0 <= i < |init| && init[i] == r;
        assert rs[i].id != rs[|rs| - 1].id;
      }
    }
  }
}
