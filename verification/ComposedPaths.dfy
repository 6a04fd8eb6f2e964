/**
 Composing multi-hop analysis paths. The original mutates the relationship arrays it is
 still traversing; the result is nevertheless a function of the direct relationships alone.
 Every added path is simple and contiguous, two or three hops long, and the only shortest
 path to a resource that has no direct relationship.
 */
module ComposedPaths {
  import opened Catalog
  import opened Pack
  import opened Sequences

  const MAX_ANALYSIS_HOPS := 3
  const MAX_COMPOSED_PER_DEPTH := 3

  type ResourceMap = map<string, Resource>

  type Path = seq<Relationship>

  predicate Direct(r: Relationship) {
    r.pathDepth == Some(1)
  }

  function LastTarget(path: Path): string
    requires path != []
  {
    path[|path| - 1].target
  }

  function LinksOf(path: Path): seq<Link> {
    if path == [] then [] else LinksOf(path[..|path| - 1]) + path[|path| - 1].Links()
  }

  lemma LinksOfExtended(path: Path, next: Relationship)
    ensures |LinksOf(path + [next])| == |LinksOf(path)| + |next.Links()|
  {
    assert (path + [next])[..|path|] == path;
  }

  function JoinedId(path: Path): string {
    if path == [] then ""
    else if |path| == 1 then path[0].id
    else JoinedId(path[..|path| - 1]) + "__" + path[|path| - 1].id
  }

  predicate AnyNullable(links: seq<Link>) {
    exists i | 0 <= i < |links| :: links[i].nullable
  }

  /** The relationship record that a path contributes to its root. */
  function CompositeOf(primaryKey: string, path: Path): Relationship
    requires path != []
  {
    var links := LinksOf(path);
    var nullable := AnyNullable(links);
    Relationship(
      JoinedId(path), LastTarget(path), path[0].localColumns, path[|path| - 1].targetColumns, primaryKey,
      Some(|path|), Some(LinkProof(DATABASE_CATALOG, links, LinkDigest(links))),
      Some(nullable), Some(if nullable then ReviewRequired else Exclude))
  }

  // ---- The traversal

  ghost predicate Hop(pack: ResourceMap, at: string, visited: set<string>, r: Relationship) {
    && at in pack && r in pack[at].relationships && Direct(r)
    && r.target !in visited && r.target in pack && |r.Links()| == 1
  }

  ghost predicate Walk(pack: ResourceMap, at: string, visited: set<string>, path: Path, from: nat)
    decreases |path| - from
  {
    && from < |path| <= MAX_ANALYSIS_HOPS
    && Hop(pack, at, visited, path[from])
    && (from + 1 < |path| ==> Walk(pack, path[from].target, visited + {path[from].target}, path, from + 1))
  }

  predicate Emits(directTargets: set<string>, path: Path) {
    |path| >= 2 && LastTarget(path) !in directTargets
  }

  /** p continues `prefix` as a walk from `at` and is a candidate. */
  ghost predicate Found(pack: ResourceMap, directTargets: set<string>, at: string, visited: set<string>, prefix: Path,
                        p: Path)
  {
    prefix <= p && Walk(pack, at, visited, p, |prefix|) && Emits(directTargets, p)
  }

  ghost predicate FoundBelow(pack: ResourceMap, directTargets: set<string>, at: string, visited: set<string>,
                             prefix: Path, n: nat, p: Path)
    requires at in pack && n <= |pack[at].relationships|
  {
    Found(pack, directTargets, at, visited, prefix, p) && p[|prefix|] in pack[at].relationships[..n]
  }

  function Composites(primaryKey: string, paths: seq<Path>): (r: seq<Relationship>)
    requires forall i | 0 <= i < |paths| :: paths[i] != []
    ensures |r| == |paths|
    ensures forall i | 0 <= i < |paths| :: r[i] == CompositeOf(primaryKey, paths[i])
  {
    seq(|paths|, i requires 0 <= i < |paths| => CompositeOf(primaryKey, paths[i]))
  }

  lemma CompositesAppend(primaryKey: string, a: seq<Path>, b: seq<Path>)
    requires Nonempty(a) && Nonempty(b)
    ensures Composites(primaryKey, a + b) == Composites(primaryKey, a) + Composites(primaryKey, b)
  {
  }

  lemma CompositesTogether(primaryKey: string, candidates: seq<Relationship>, own: seq<Path>, beyond: seq<Path>)
    requires Nonempty(own) && Nonempty(beyond)
    ensures candidates + Composites(primaryKey, own) + Composites(primaryKey, beyond)
         == candidates + Composites(primaryKey, own + beyond)
  {
    CompositesAppend(primaryKey, own, beyond);
  }

  /** No direct relationship is listed twice. */
  ghost predicate DirectOnce(rs: seq<Relationship>) {
    forall r | Direct(r) :: multiset(rs)[r] <= 1
  }

  ghost predicate NoRepeatedRelationships(pack: ResourceMap) {
    forall id | id in pack :: DirectOnce(pack[id].relationships)
  }

  lemma DirectOnceBefore(rs: seq<Relationship>, k: nat)
    requires DirectOnce(rs) && k < |rs| && Direct(rs[k])
    ensures rs[k] !in rs[..k]
  {
    assert rs == rs[..k] + [rs[k]] + rs[k + 1..];
    assert multiset(rs) == multiset(rs[..k]) + multiset{rs[k]} + multiset(rs[k + 1..]);
  }

  ghost predicate Nonempty(paths: seq<Path>) {
    forall i | 0 <= i < |paths| :: paths[i] != []
  }

  /** What a usable relationship adds: the path that ends with it, then everything beyond it. */
  lemma HopFinds(pack: ResourceMap, directTargets: set<string>, at: string, visited: set<string>, prefix: Path,
                 next: Relationship, path: Path, own: seq<Path>, beyond: seq<Path>)
    requires |prefix| < MAX_ANALYSIS_HOPS && Hop(pack, at, visited, next) && path == prefix + [next]
    requires own == if Emits(directTargets, path) then [path] else []
    requires NoDuplicates(beyond)
    requires forall p :: p in beyond <==> Found(pack, directTargets, next.target, visited + {next.target}, path, p)
    ensures NoDuplicates(own + beyond)
    ensures forall p :: p in own + beyond <==> Found(pack, directTargets, at, visited, prefix, p) && p[|prefix|] == next
  {
    assert path[|prefix|] == next;
    forall p
      ensures p in own + beyond <==> Found(pack, directTargets, at, visited, prefix, p) && p[|prefix|] == next
    {
      if Found(pack, directTargets, at, visited, prefix, p) && p[|prefix|] == next {
        assert p[..|prefix| + 1] == path;
        assert |p| == |prefix| + 1 ==> p == path;
        assert |p| > |prefix| + 1 ==> Found(pack, directTargets, next.target, visited + {next.target}, path, p);
      }
      if p in own + beyond {
        assert p[|prefix|] == path[|prefix|];
      }
    }
    ConcatenationDuplicateFree(own, beyond);
  }

  lemma BelowExtends(pack: ResourceMap, directTargets: set<string>, at: string, visited: set<string>, prefix: Path,
                     k: nat, paths: seq<Path>, added: seq<Path>)
    requires at in pack && k < |pack[at].relationships| && DirectOnce(pack[at].relationships)
    requires NoDuplicates(paths) && NoDuplicates(added)
    requires forall p :: p in paths <==> FoundBelow(pack, directTargets, at, visited, prefix, k, p)
    requires forall p :: p in added <==>
               Found(pack, directTargets, at, visited, prefix, p) && p[|prefix|] == pack[at].relationships[k]
    ensures NoDuplicates(paths + added)
    ensures forall p :: p in paths + added <==> FoundBelow(pack, directTargets, at, visited, prefix, k + 1, p)
  {
    var rs := pack[at].relationships;
    assert rs[..k + 1] == rs[..k] + [rs[k]];
    if Direct(rs[k]) {
      DirectOnceBefore(rs, k);
    }
    forall p | p in paths ensures p !in added {
      assert FoundBelow(pack, directTargets, at, visited, prefix, k, p);
    }
    ConcatenationDuplicateFree(paths, added);
  }

  /** The paths are the candidates that leave `at` by one of its first n relationships, each once. */
  ghost predicate Enumerates(pack: ResourceMap, directTargets: set<string>, at: string, visited: set<string>,
                             prefix: Path, n: nat, paths: seq<Path>)
    requires at in pack && n <= |pack[at].relationships|
  {
    && NoDuplicates(paths) && Nonempty(paths)
    && forall p :: p in paths <==> FoundBelow(pack, directTargets, at, visited, prefix, n, p)
  }

  /** One iteration of the visit: relationship k of `current`. */
  method VisitOne(pack: ResourceMap, primaryKey: string, directTargets: set<string>, current: string, path: Path,
                  visited: set<string>, k: nat, candidates: seq<Relationship>)
    returns (out: seq<Relationship>, ghost added: seq<Path>)
    requires current in pack && NoRepeatedRelationships(pack) && k < |pack[current].relationships|
    requires |LinksOf(path)| == |path| < MAX_ANALYSIS_HOPS
    ensures NoDuplicates(added) && Nonempty(added)
    ensures out == candidates + Composites(primaryKey, added)
    ensures forall p :: p in added <==>
              Found(pack, directTargets, current, visited, path, p) && p[|path|] == pack[current].relationships[k]
    decreases MAX_ANALYSIS_HOPS - |path|, 0
  {
    var next := pack[current].relationships[k];
    var nextPath := path + [next];
    LinksOfExtended(path, next);
    assert Hop(pack, current, visited, next)
      <==> Direct(next) && next.target !in visited && next.target in pack && |LinksOf(nextPath)| == |nextPath|;
    out, added := candidates, [];
    if Direct(next) && next.target !in visited && next.target in pack && |LinksOf(nextPath)| == |nextPath| {
      ghost var own: seq<Path> := [];
      if Emits(directTargets, nextPath) {
        own := [nextPath];
        out := out + [CompositeOf(primaryKey, nextPath)];
      }
      assert out == candidates + Composites(primaryKey, own);
      ghost var beyond;
      out, beyond := Visit(pack, primaryKey, directTargets, next.target, nextPath, visited + {next.target}, out);
      CompositesTogether(primaryKey, candidates, own, beyond);
      HopFinds(pack, directTargets, current, visited, path, next, nextPath, own, beyond);
      added := own + beyond;
    }
  }

  /** Appends the candidates beyond `current`, one per walk and each walk once. */
  method Visit(pack: ResourceMap, primaryKey: string, directTargets: set<string>, current: string, path: Path,
               visited: set<string>, candidates: seq<Relationship>)
    returns (out: seq<Relationship>, ghost paths: seq<Path>)
    requires current in pack && NoRepeatedRelationships(pack)
    requires |LinksOf(path)| == |path|
    ensures NoDuplicates(paths) && Nonempty(paths)
    ensures out == candidates + Composites(primaryKey, paths)
    ensures forall p :: p in paths <==> Found(pack, directTargets, current, visited, path, p)
    ensures forall c :: c in out <==>
      c in candidates || Contributed(pack, primaryKey, directTargets, current, path, visited, c)
    decreases MAX_ANALYSIS_HOPS - |path|, 1
  {
    out, paths := candidates, [];
    if |path| >= MAX_ANALYSIS_HOPS {
      return;
    }
    var k := 0;
    while k < |pack[current].relationships|
      invariant k <= |pack[current].relationships|
      invariant Enumerates(pack, directTargets, current, visited, path, k, paths)
      invariant out == candidates + Composites(primaryKey, paths)
    {
      ghost var added;
      out, added := VisitOne(pack, primaryKey, directTargets, current, path, visited, k, out);
      BelowExtends(pack, directTargets, current, visited, path, k, paths, added);
      CompositesAppend(primaryKey, paths, added);
      paths := paths + added;
      k := k + 1;
    }
    AllFound(pack, directTargets, current, visited, path);
    ContributedByPaths(pack, primaryKey, directTargets, current, path, visited, paths);
  }

  /** c is the record of some walk that the visit finds beyond `current`. */
  ghost predicate Contributed(pack: ResourceMap, primaryKey: string, directTargets: set<string>, current: string,
                              path: Path, visited: set<string>, c: Relationship)
  {
    exists p :: p != [] && Found(pack, directTargets, current, visited, path, p) && c == CompositeOf(primaryKey, p)
  }

  lemma ContributedByPaths(pack: ResourceMap, primaryKey: string, directTargets: set<string>, current: string,
                           path: Path, visited: set<string>, paths: seq<Path>)
    requires Nonempty(paths) && forall p :: p in paths <==> Found(pack, directTargets, current, visited, path, p)
    ensures forall c :: c in Composites(primaryKey, paths) <==>
      Contributed(pack, primaryKey, directTargets, current, path, visited, c)
  {
    var cs := Composites(primaryKey, paths);
    forall c ensures c in cs <==> Contributed(pack, primaryKey, directTargets, current, path, visited, c) {
      if c in cs {
        var i :| 0 <= i < |cs| && cs[i] == c;
        assert paths[i] in paths && c == CompositeOf(primaryKey, paths[i]);
      }
    }
  }

  lemma AllFound(pack: ResourceMap, directTargets: set<string>, at: string, visited: set<string>, prefix: Path)
    requires at in pack
    ensures forall p :: Found(pack, directTargets, at, visited, prefix, p)
                   <==> FoundBelow(pack, directTargets, at, visited, prefix, |pack[at].relationships|, p)
  {
    assert pack[at].relationships[..|pack[at].relationships|] == pack[at].relationships;
  }

  // ---- The reference definition

  /** The resource that hop i of a path out of `root` leaves from. */
  function HopSource(root: string, path: Path, i: nat): string
    requires i <= |path|
  {
    if i == 0 then root else path[i - 1].target
  }

  function DirectTargets(r: Resource): set<string> {
    set x | x in r.relationships && Direct(x) :: x.target
  }

  /** Hop i is a direct relationship of its source, with one recorded link, to a listed resource. */
  ghost predicate DeclaredHop(pack: ResourceMap, root: string, path: Path, i: nat)
    requires i < |path|
  {
    var at := HopSource(root, path, i);
    && at in pack && path[i] in pack[at].relationships && Direct(path[i])
    && path[i].target in pack && |path[i].Links()| == 1
  }

  ghost predicate SimpleFrom(pack: ResourceMap, root: string, avoid: set<string>, path: Path, from: nat) {
    && from < |path| <= 3
    && (forall i | from <= i < |path| :: DeclaredHop(pack, root, path, i))
    && (forall i | from <= i < |path| :: path[i].target !in avoid)
    && (forall i, j | from <= i < j < |path| :: path[i].target != path[j].target)
  }

  /** A contiguous simple path of two or three direct hops to a resource without a direct one. */
  ghost predicate Composable(pack: ResourceMap, root: string, path: Path) {
    && root in pack
    && |path| >= 2
    && SimpleFrom(pack, root, {root}, path, 0)
    && LastTarget(path) !in DirectTargets(pack[root])
  }

  lemma SimpleUnfolds(pack: ResourceMap, root: string, avoid: set<string>, path: Path, from: nat)
    requires from < |path| <= MAX_ANALYSIS_HOPS
    ensures SimpleFrom(pack, root, avoid, path, from) <==>
            && Hop(pack, HopSource(root, path, from), avoid, path[from])
            && (from + 1 < |path| ==> SimpleFrom(pack, root, avoid + {path[from].target}, path, from + 1))
  {
    assert Hop(pack, HopSource(root, path, from), avoid, path[from])
      <==> DeclaredHop(pack, root, path, from) && path[from].target !in avoid;
    if from + 1 < |path| && SimpleFrom(pack, root, avoid, path, from) {
      forall i | from + 1 <= i < |path| ensures path[i].target !in avoid + {path[from].target} {
        assert path[from].target != path[i].target;
      }
    }
    if Hop(pack, HopSource(root, path, from), avoid, path[from])
      && (from + 1 < |path| ==> SimpleFrom(pack, root, avoid + {path[from].target}, path, from + 1))
    {
      forall i | from <= i < |path| ensures DeclaredHop(pack, root, path, i) && path[i].target !in avoid {
      }
      forall i, j | from <= i < j < |path| ensures path[i].target != path[j].target {
        assert path[j].target !in avoid + {path[from].target};
      }
    }
  }

  lemma {:induction false} WalkIffSimple(pack: ResourceMap, root: string, visited: set<string>, path: Path, from: nat)
    requires from <= |path|
    ensures Walk(pack, HopSource(root, path, from), visited, path, from) <==>
      SimpleFrom(pack, root, visited, path, from)
    decreases |path| - from
  {
    if from < |path| <= MAX_ANALYSIS_HOPS {
      SimpleUnfolds(pack, root, visited, path, from);
      WalkIffSimple(pack, root, visited + {path[from].target}, path, from + 1);
    }
  }

  /** c is the record of the only shortest composable path to its target. */
  ghost predicate ComposedAs(pack: ResourceMap, root: string, path: Path, c: Relationship) {
    && Composable(pack, root, path)
    && c == CompositeOf(pack[root].primaryKey, path)
    && forall other | Composable(pack, root, other) && other != path && LastTarget(other) == LastTarget(path) ::
         |path| < |other|
  }

  ghost predicate Unambiguous(pack: ResourceMap, root: string, c: Relationship) {
    exists path :: ComposedAs(pack, root, path, c)
  }

  function Score(r: Resource): nat {
    |r.groupable| * 4 + |r.timeBuckets| * 3 + |r.selectable|
  }

  type Scores = map<string, nat>

  function ScoresOf(pack: ResourceMap): Scores {
    map id | id in pack :: Score(pack[id])
  }

  function ScoreOf(scores: Scores, id: string): nat {
    if id in scores then scores[id] else 0
  }

  /** Higher-scored targets first, then by relationship id. */
  predicate RankLe(scores: Scores, collation: (string, string) -> bool, a: Relationship, b: Relationship) {
    var sa, sb := ScoreOf(scores, a.target), ScoreOf(scores, b.target);
    sa > sb || (sa == sb && collation(a.id, b.id))
  }

  function Rank(scores: Scores, collation: (string, string) -> bool): (Relationship, Relationship) -> bool {
    (a: Relationship, b: Relationship) => RankLe(scores, collation, a, b)
  }

  /** Shallower relationships first, then by id. */
  predicate ListedLe(collation: (string, string) -> bool, a: Relationship, b: Relationship) {
    a.Depth() < b.Depth() || (a.Depth() == b.Depth() && collation(a.id, b.id))
  }

  function Listed(collation: (string, string) -> bool): (Relationship, Relationship) -> bool {
    (a: Relationship, b: Relationship) => ListedLe(collation, a, b)
  }

  lemma RankIsPreorder(scores: Scores, collation: (string, string) -> bool)
    requires TotalOrder(collation)
    ensures TotalPreorder(Rank(scores, collation))
  {
    var le := Rank(scores, collation);
    forall x, y ensures le(x, y) || le(y, x) {
      assert RankLe(scores, collation, x, y) || RankLe(scores, collation, y, x);
    }
    forall x, y, z | le(x, y) && le(y, z) ensures le(x, z) {
      assert RankLe(scores, collation, x, y) && RankLe(scores, collation, y, z);
      assert RankLe(scores, collation, x, z);
    }
  }

  /** The unambiguous composites of a root, in rank order. */
  ghost predicate Ranked(pack: ResourceMap, root: string, collation: (string, string) -> bool,
                         ranked: seq<Relationship>)
  {
    && NoDuplicates(ranked)
    && Sorted(ranked, Rank(ScoresOf(pack), collation))
    && forall c :: c in ranked <==> Unambiguous(pack, root, c)
  }

  function OfDepth(depth: nat): Relationship -> bool {
    (r: Relationship) => r.pathDepth == Some(depth)
  }

  /** The best-ranked composites of one depth that are added. */
  function Chosen(ranked: seq<Relationship>, depth: nat): seq<Relationship> {
    Take(Filter(ranked, OfDepth(depth)), MAX_COMPOSED_PER_DEPTH)
  }

  function Placed(own: seq<Relationship>, ranked: seq<Relationship>,
                  collation: (string, string) -> bool): seq<Relationship>
  {
    Sort(own + Chosen(ranked, 2) + Chosen(ranked, 3), Listed(collation))
  }

  predicate FactShaped(r: Resource, isReferenceName: string -> bool) {
    || |r.relationships| >= 2
    || (exists i | 0 <= i < |r.aggregates| :: !isReferenceName(r.aggregates[i]))
    || |r.timeBuckets| > 0
    || (|r.relationships| > 0 && |r.groupable| > 0)
  }

  /** What composing leaves in the relationship array of `root`, as a function of the original pack. */
  ghost predicate ComposedFor(pack: ResourceMap, root: string, isReferenceName: string -> bool,
                              collation: (string, string) -> bool, result: seq<Relationship>)
    requires root in pack
  {
    if FactShaped(pack[root], isReferenceName) then
      exists ranked :: Ranked(pack, root, collation, ranked)
        && result == Placed(pack[root].relationships, ranked, collation)
    else
      result == pack[root].relationships
  }

  /** Different composable paths of a root carry different joined ids. */
  ghost predicate ComposedIdsDistinct(pack: ResourceMap, root: string) {
    forall p, q | Composable(pack, root, p) && Composable(pack, root, q) && JoinedId(p) == JoinedId(q) :: p == q
  }

  lemma RankedUnique(pack: ResourceMap, root: string, collation: (string, string) -> bool, a: seq<Relationship>,
                     b: seq<Relationship>)
    requires TotalOrder(collation) && ComposedIdsDistinct(pack, root)
    requires Ranked(pack, root, collation, a) && Ranked(pack, root, collation, b)
    ensures a == b
  {
    SameElementsSameMultiset(a, b);
    var le := Rank(ScoresOf(pack), collation);
    forall x, y | x in a && y in a && le(x, y) && le(y, x) ensures x == y {
      assert RankLe(ScoresOf(pack), collation, x, y) && RankLe(ScoresOf(pack), collation, y, x);
      assert Unambiguous(pack, root, x) && Unambiguous(pack, root, y);
      var p :| ComposedAs(pack, root, p, x);
      var q :| ComposedAs(pack, root, q, y);
    }
    SortedUnique(a, b, le);
  }

  /** The result is determined by the resources alone: whatever order the traversal took, it is the same. */
  lemma ComposedForUnique(pack: ResourceMap, root: string, isReferenceName: string -> bool,
                          collation: (string, string) -> bool, a: seq<Relationship>, b: seq<Relationship>)
    requires root in pack && TotalOrder(collation) && ComposedIdsDistinct(pack, root)
    requires ComposedFor(pack, root, isReferenceName, collation, a)
    requires ComposedFor(pack, root, isReferenceName, collation, b)
    ensures a == b
  {
    if FactShaped(pack[root], isReferenceName) {
      var x :| Ranked(pack, root, collation, x) && a == Placed(pack[root].relationships, x, collation);
      var y :| Ranked(pack, root, collation, y) && b == Placed(pack[root].relationships, y, collation);
      RankedUnique(pack, root, collation, x, y);
    }
  }

  // ---- Keeping the unambiguous candidates

  function ToTarget(target: string): Relationship -> bool {
    (r: Relationship) => r.target == target
  }

  function AtDepth(depth: nat): Relationship -> bool {
    (r: Relationship) => r.Depth() == depth
  }

  function ShortestDepth(group: seq<Relationship>): (m: nat)
    requires group != []
    ensures exists c | c in group :: c.Depth() == m
    ensures forall c | c in group :: m <= c.Depth()
  {
    if |group| == 1 then group[0].Depth()
    else
      var rest := ShortestDepth(group[1..]);
      assert forall c | c in group :: c == group[0] || c in group[1..];
      if group[0].Depth() < rest then group[0].Depth() else rest
  }

  /** The group's shortest member, when it is the only one. */
  function OnlyShortest(group: seq<Relationship>): seq<Relationship>
    requires group != []
  {
    var shortest := Filter(group, AtDepth(ShortestDepth(group)));
    if |shortest| == 1 then shortest else []
  }

  ghost predicate UniqueShortest(candidates: seq<Relationship>, c: Relationship) {
    && c in candidates
    && forall d | d in candidates && d.target == c.target && d != c :: c.Depth() < d.Depth()
  }

  lemma OnlyShortestIsUnique(group: seq<Relationship>, c: Relationship)
    requires NoDuplicates(group) && group != []
    ensures NoDuplicates(OnlyShortest(group))
    ensures c in OnlyShortest(group) <==> c in group && forall d | d in group && d != c :: c.Depth() < d.Depth()
  {
    var m := ShortestDepth(group);
    var shortest := Filter(group, AtDepth(m));
    FilterMembers(group, AtDepth(m));
    FilterDuplicateFree(group, AtDepth(m));
    if c in OnlyShortest(group) {
      assert shortest == [c];
      forall d | d in group && d != c ensures c.Depth() < d.Depth() {
        assert d !in shortest;
      }
    }
    if c in group && forall d | d in group && d != c :: c.Depth() < d.Depth() {
      var x :| x in group && x.Depth() == m;
      assert x == c && c in shortest;
      forall i | 0 <= i < |shortest| ensures shortest[i] == c {
        assert shortest[i] in shortest;
      }
      OnlyMember(shortest, c);
    }
  }

  lemma OnlyShortestMembers(candidates: seq<Relationship>, target: string, c: Relationship)
    requires NoDuplicates(candidates) && Filter(candidates, ToTarget(target)) != []
    ensures NoDuplicates(OnlyShortest(Filter(candidates, ToTarget(target))))
    ensures c in OnlyShortest(Filter(candidates, ToTarget(target))) <==>
      c.target == target && UniqueShortest(candidates, c)
  {
    FilterMembers(candidates, ToTarget(target));
    FilterDuplicateFree(candidates, ToTarget(target));
    OnlyShortestIsUnique(Filter(candidates, ToTarget(target)), c);
  }

  ghost predicate Grouped(candidates: seq<Relationship>, targets: seq<string>, groups: map<string, seq<Relationship>>) {
    && NoDuplicates(targets)
    && (forall t :: t in targets <==> t in groups)
    && (forall i | 0 <= i < |candidates| :: candidates[i].target in groups)
    && (forall t | t in groups :: groups[t] == Filter(candidates, ToTarget(t)) && groups[t] != [])
  }

  lemma GroupedExtends(candidates: seq<Relationship>, k: nat, targets: seq<string>,
                       groups: map<string, seq<Relationship>>, targets': seq<string>,
                       groups': map<string, seq<Relationship>>)
    requires k < |candidates| && Grouped(candidates[..k], targets, groups)
    requires var c := candidates[k];
             && targets' == (if c.target in groups then targets else targets + [c.target])
             && groups' == groups[c.target := (if c.target in groups then groups[c.target] else []) + [c]]
    ensures Grouped(candidates[..k + 1], targets', groups')
  {
    var c, before, now := candidates[k], candidates[..k], candidates[..k + 1];
    assert now[..k] == before && now == before + [c];
    if c.target !in groups {
      FilterNone(before, ToTarget(c.target));
      ConcatenationDuplicateFree(targets, [c.target]);
    }
    forall t | t in groups' ensures groups'[t] == Filter(now, ToTarget(t)) && groups'[t] != [] {
      assert Filter(now, ToTarget(t)) == Filter(before, ToTarget(t)) + (if ToTarget(t)(c) then [c] else []);
    }
    forall i | 0 <= i < |now| ensures now[i].target in groups' {
      if i < k { assert before[i].target in groups; }
    }
  }

  method GroupByTarget(candidates: seq<Relationship>)
    returns (targets: seq<string>, groups: map<string, seq<Relationship>>)
    ensures Grouped(candidates, targets, groups)
  {
    targets, groups := [], map[];
    var k := 0;
    while k < |candidates|
      invariant k <= |candidates|
      invariant Grouped(candidates[..k], targets, groups)
    {
      var c := candidates[k];
      ghost var oldTargets, oldGroups := targets, groups;
      var group := if c.target in groups then groups[c.target] else [];
      if c.target !in groups {
        targets := targets + [c.target];
      }
      groups := groups[c.target := group + [c]];
      GroupedExtends(candidates, k, oldTargets, oldGroups, targets, groups);
      k := k + 1;
    }
    assert candidates[..k] == candidates;
  }

  /** c is kept on behalf of one of the first n targets. */
  ghost predicate KeptFor(candidates: seq<Relationship>, targets: seq<string>, n: nat, c: Relationship)
    requires n <= |targets|
  {
    UniqueShortest(candidates, c) && exists i :: 0 <= i < n && targets[i] == c.target
  }

  lemma KeptExtends(candidates: seq<Relationship>, targets: seq<string>, j: nat, kept: seq<Relationship>)
    requires NoDuplicates(candidates) && NoDuplicates(targets) && NoDuplicates(kept) && j < |targets|
    requires Filter(candidates, ToTarget(targets[j])) != []
    requires forall c :: c in kept <==> KeptFor(candidates, targets, j, c)
    ensures NoDuplicates(kept + OnlyShortest(Filter(candidates, ToTarget(targets[j]))))
    ensures forall c :: c in kept + OnlyShortest(Filter(candidates, ToTarget(targets[j]))) <==>
      KeptFor(candidates, targets, j + 1, c)
  {
    var only := OnlyShortest(Filter(candidates, ToTarget(targets[j])));
    forall c ensures c in only <==> c.target == targets[j] && UniqueShortest(candidates, c) {
      OnlyShortestMembers(candidates, targets[j], c);
    }
    assert candidates != [];
    OnlyShortestMembers(candidates, targets[j], candidates[0]);
    forall c | c in kept ensures c !in only {
      assert KeptFor(candidates, targets, j, c);
    }
    ConcatenationDuplicateFree(kept, only);
  }

  /** Keeps each target's shortest candidate when it is the only shortest one. */
  method KeepUnambiguous(candidates: seq<Relationship>) returns (kept: seq<Relationship>)
    requires NoDuplicates(candidates)
    ensures NoDuplicates(kept)
    ensures forall c :: c in kept <==> UniqueShortest(candidates, c)
  {
    var targets, groups := GroupByTarget(candidates);
    kept := [];
    var j := 0;
    while j < |targets|
      invariant j <= |targets|
      invariant NoDuplicates(kept)
      invariant forall c :: c in kept <==> KeptFor(candidates, targets, j, c)
    {
      assert targets[j] in targets;
      KeptExtends(candidates, targets, j, kept);
      kept := kept + OnlyShortest(groups[targets[j]]);
      j := j + 1;
    }
    forall c ensures KeptFor(candidates, targets, |targets|, c) <==> UniqueShortest(candidates, c) {
      if UniqueShortest(candidates, c) {
        assert c.target in targets;
      }
    }
  }

  // ---- One root

  lemma FoundIsComposable(pack: ResourceMap, root: string, p: Path)
    requires root in pack
    ensures Found(pack, DirectTargets(pack[root]), root, {root}, [], p) <==> Composable(pack, root, p)
  {
    WalkIffSimple(pack, root, {root}, p, 0);
  }

  ghost predicate AllComposable(pack: ResourceMap, root: string, paths: seq<Path>) {
    && root in pack && NoDuplicates(paths) && Nonempty(paths)
    && forall p :: p in paths <==> Composable(pack, root, p)
  }

  lemma CandidatesDuplicateFree(pack: ResourceMap, root: string, paths: seq<Path>)
    requires AllComposable(pack, root, paths) && ComposedIdsDistinct(pack, root)
    ensures NoDuplicates(Composites(pack[root].primaryKey, paths))
  {
    var cs := Composites(pack[root].primaryKey, paths);
    forall i, j | 0 <= i < j < |cs| ensures cs[i] != cs[j] {
      assert paths[i] in paths && paths[j] in paths;
      assert cs[i].id == JoinedId(paths[i]) && cs[j].id == JoinedId(paths[j]);
    }
  }

  lemma CandidateOf(primaryKey: string, paths: seq<Path>, c: Relationship) returns (p: Path)
    requires Nonempty(paths) && c in Composites(primaryKey, paths)
    ensures p in paths && p != [] && c == CompositeOf(primaryKey, p)
  {
    var i :| 0 <= i < |paths| && Composites(primaryKey, paths)[i] == c;
    p := paths[i];
  }

  lemma CandidateIn(primaryKey: string, paths: seq<Path>, p: Path)
    requires Nonempty(paths) && p in paths
    ensures p != [] && CompositeOf(primaryKey, p) in Composites(primaryKey, paths)
  {
    var i :| 0 <= i < |paths| && paths[i] == p;
    assert Composites(primaryKey, paths)[i] == CompositeOf(primaryKey, p);
  }

  /** Unique shortest among the collected records means unique shortest among the paths. */
  lemma KeptIsUnambiguous(pack: ResourceMap, root: string, paths: seq<Path>, c: Relationship)
    requires AllComposable(pack, root, paths) && ComposedIdsDistinct(pack, root)
    ensures UniqueShortest(Composites(pack[root].primaryKey, paths), c) <==> Unambiguous(pack, root, c)
  {
    var pk := pack[root].primaryKey;
    var cs := Composites(pk, paths);
    if UniqueShortest(cs, c) {
      var p := CandidateOf(pk, paths, c);
      forall q | Composable(pack, root, q) && q != p && LastTarget(q) == LastTarget(p) ensures |p| < |q| {
        CandidateIn(pk, paths, q);
        assert CompositeOf(pk, q).id == JoinedId(q) && CompositeOf(pk, p).id == JoinedId(p);
      }
      assert ComposedAs(pack, root, p, c);
    }
    if Unambiguous(pack, root, c) {
      var p :| ComposedAs(pack, root, p, c);
      CandidateIn(pk, paths, p);
      forall d | d in cs && d.target == c.target && d != c ensures c.Depth() < d.Depth() {
        var q := CandidateOf(pk, paths, d);
        assert Composable(pack, root, q) && LastTarget(q) == LastTarget(p);
      }
    }
  }

  /** The relationship array that one iteration of the outer loop leaves behind. */
  method ComposeRoot(pack: ResourceMap, root: string, isReferenceName: string -> bool,
                     collation: (string, string) -> bool)
    returns (result: seq<Relationship>)
    requires root in pack && NoRepeatedRelationships(pack)
    requires TotalOrder(collation) && ComposedIdsDistinct(pack, root)
    ensures ComposedFor(pack, root, isReferenceName, collation, result)
  {
    if !FactShaped(pack[root], isReferenceName) {
      return pack[root].relationships;
    }
    var candidates, paths := Visit(pack, pack[root].primaryKey, DirectTargets(pack[root]), root, [], {root}, []);
    forall p ensures p in paths <==> Composable(pack, root, p) {
      FoundIsComposable(pack, root, p);
    }
    assert candidates == Composites(pack[root].primaryKey, paths);
    CandidatesDuplicateFree(pack, root, paths);
    var kept := KeepUnambiguous(candidates);
    forall c ensures c in kept <==> Unambiguous(pack, root, c) {
      KeptIsUnambiguous(pack, root, paths, c);
    }
    var ranked := Sort(kept, Rank(ScoresOf(pack), collation));
    SortIsRanked(pack, root, collation, kept);
    result := Placed(pack[root].relationships, ranked, collation);
  }

  lemma SortIsRanked(pack: ResourceMap, root: string, collation: (string, string) -> bool, kept: seq<Relationship>)
    requires TotalOrder(collation) && NoDuplicates(kept)
    requires forall c :: c in kept <==> Unambiguous(pack, root, c)
    ensures Ranked(pack, root, collation, Sort(kept, Rank(ScoresOf(pack), collation)))
  {
    var le := Rank(ScoresOf(pack), collation);
    RankIsPreorder(ScoresOf(pack), collation);
    SortSorted(kept, le);
    MultisetMembers(Sort(kept, le), kept);
    RearrangedDuplicateFree(kept, Sort(kept, le));
  }

  // ---- The whole pack, in place

  ghost predicate SameDirectAt(a: Resource, b: Resource) {
    && a.primaryKey == b.primaryKey
    && Score(a) == Score(b)
    && forall r | Direct(r) :: r in a.relationships <==> r in b.relationships
  }

  /** The two packs agree on everything composing reads. */
  ghost predicate SameDirect(p: ResourceMap, q: ResourceMap) {
    p.Keys == q.Keys && forall id | id in p :: SameDirectAt(p[id], q[id])
  }

  lemma ComposableSame(p: ResourceMap, q: ResourceMap, root: string, path: Path)
    requires SameDirect(p, q)
    ensures Composable(p, root, path) <==> Composable(q, root, path)
  {
    if root in p {
      assert DirectTargets(p[root]) == DirectTargets(q[root]);
    }
    forall i | 0 <= i < |path| ensures DeclaredHop(p, root, path, i) <==> DeclaredHop(q, root, path, i) {
    }
  }

  lemma UnambiguousSame(p: ResourceMap, q: ResourceMap, root: string, c: Relationship)
    requires SameDirect(p, q) && Unambiguous(p, root, c)
    ensures Unambiguous(q, root, c)
  {
    var path :| ComposedAs(p, root, path, c);
    forall other ensures Composable(p, root, other) <==> Composable(q, root, other) {
      ComposableSame(p, q, root, other);
    }
    assert ComposedAs(q, root, path, c);
  }

  lemma SameDirectSymmetric(p: ResourceMap, q: ResourceMap)
    requires SameDirect(p, q)
    ensures SameDirect(q, p)
  {
  }

  lemma RankedSame(p: ResourceMap, q: ResourceMap, root: string, collation: (string, string) -> bool,
                   ranked: seq<Relationship>)
    requires SameDirect(p, q) && Ranked(p, root, collation, ranked)
    ensures Ranked(q, root, collation, ranked)
  {
    SameDirectSymmetric(p, q);
    assert ScoresOf(p) == ScoresOf(q);
    forall c ensures c in ranked <==> Unambiguous(q, root, c) {
      if Unambiguous(p, root, c) { UnambiguousSame(p, q, root, c); }
      if Unambiguous(q, root, c) { UnambiguousSame(q, p, root, c); }
    }
  }

  lemma ComposedForSame(p: ResourceMap, q: ResourceMap, root: string, isReferenceName: string -> bool,
                        collation: (string, string) -> bool, result: seq<Relationship>)
    requires SameDirect(p, q) && root in p && p[root] == q[root]
    requires ComposedFor(p, root, isReferenceName, collation, result)
    ensures ComposedFor(q, root, isReferenceName, collation, result)
  {
    if FactShaped(p[root], isReferenceName) {
      var ranked :| Ranked(p, root, collation, ranked) && result == Placed(p[root].relationships, ranked, collation);
      RankedSame(p, q, root, collation, ranked);
    }
  }

  lemma ChosenNotDirect(ranked: seq<Relationship>, depth: nat, r: Relationship)
    requires Direct(r) && depth >= 2
    ensures multiset(Chosen(ranked, depth))[r] == 0
  {
    FilterMembers(ranked, OfDepth(depth));
    TakeMembers(Filter(ranked, OfDepth(depth)), MAX_COMPOSED_PER_DEPTH);
    assert r !in Filter(ranked, OfDepth(depth));
    assert r !in Chosen(ranked, depth);
  }

  lemma PlacedDirect(own: seq<Relationship>, ranked: seq<Relationship>, collation: (string, string) -> bool,
                     r: Relationship)
    requires Direct(r)
    ensures multiset(Placed(own, ranked, collation))[r] == multiset(own)[r]
  {
    ChosenNotDirect(ranked, 2, r);
    ChosenNotDirect(ranked, 3, r);
    assert multiset(Placed(own, ranked, collation)) == multiset(own) + multiset(Chosen(ranked, 2))
      + multiset(Chosen(ranked, 3));
  }

  /** Composing leaves the direct relationships of a resource as they were. */
  lemma DirectUntouched(pack: ResourceMap, root: string, isReferenceName: string -> bool,
                        collation: (string, string) -> bool, result: seq<Relationship>, r: Relationship)
    requires root in pack && ComposedFor(pack, root, isReferenceName, collation, result) && Direct(r)
    ensures multiset(result)[r] == multiset(pack[root].relationships)[r]
  {
    if FactShaped(pack[root], isReferenceName) {
      var ranked :| Ranked(pack, root, collation, ranked)
        && result == Placed(pack[root].relationships, ranked, collation);
      PlacedDirect(pack[root].relationships, ranked, collation, r);
    }
  }

  /** `now` is `was` with its relationships composed from the listed resources. */
  ghost predicate Composed(pack: ResourceMap, was: Resource, now: Resource, isReferenceName: string -> bool,
                           collation: (string, string) -> bool)
  {
    && now == was.(relationships := now.relationships)
    && was.id in pack && pack[was.id] == was
    && ComposedFor(pack, was.id, isReferenceName, collation, now.relationships)
  }

  lemma ComposedSameDirect(pack: ResourceMap, was: Resource, now: Resource, isReferenceName: string -> bool,
                           collation: (string, string) -> bool)
    requires Composed(pack, was, now, isReferenceName, collation) && DirectOnce(was.relationships)
    ensures SameDirectAt(now, was) && DirectOnce(now.relationships)
  {
    forall r | Direct(r)
      ensures multiset(now.relationships)[r] == multiset(was.relationships)[r]
      ensures r in now.relationships <==> r in was.relationships
    {
      DirectUntouched(pack, was.id, isReferenceName, collation, now.relationships, r);
      assert r in now.relationships <==> r in multiset(now.relationships);
      assert r in was.relationships <==> r in multiset(was.relationships);
    }
  }

  /** The first n resources are composed from the original pack; the others are untouched. */
  ghost predicate ComposedUpTo(before: seq<Resource>, after: seq<Resource>, n: nat, isReferenceName: string -> bool,
                               collation: (string, string) -> bool)
    requires n <= |before|
  {
    && |after| == |before|
    && (forall i | 0 <= i < n :: Composed(ById(before), before[i], after[i], isReferenceName, collation))
    && (forall i | n <= i < |before| :: after[i] == before[i])
  }

  ghost predicate SameIds(before: seq<Resource>, after: seq<Resource>) {
    |after| == |before| && forall i | 0 <= i < |before| :: after[i].id == before[i].id
  }

  /** Where the tables of two lists with the same ids look a resource up. */
  lemma SamePlace(before: seq<Resource>, after: seq<Resource>, id: string) returns (i: nat)
    requires DistinctIds(before) && SameIds(before, after) && id in ById(after)
    ensures DistinctIds(after) && id in ById(before)
    ensures i < |before| && ById(after)[id] == after[i] && ById(before)[id] == before[i]
  {
    assert DistinctIds(after);
    i :| 0 <= i < |after| && after[i] == ById(after)[id];
    ByIdFinds(after, i);
    ByIdFinds(before, i);
  }

  ghost predicate KeepsDirect(before: seq<Resource>, after: seq<Resource>) {
    forall i | 0 <= i < |before| && i < |after| :: SameDirectAt(after[i], before[i])
      && DirectOnce(after[i].relationships)
  }

  lemma SameDirectById(before: seq<Resource>, after: seq<Resource>, id: string)
    requires DistinctIds(before) && SameIds(before, after) && KeepsDirect(before, after) && id in ById(after)
    ensures id in ById(before) && SameDirectAt(ById(after)[id], ById(before)[id])
      && DirectOnce(ById(after)[id].relationships)
  {
    var i := SamePlace(before, after, id);
  }

  lemma SameKeys(before: seq<Resource>, after: seq<Resource>)
    requires DistinctIds(before) && SameIds(before, after)
    ensures DistinctIds(after) && ById(before).Keys == ById(after).Keys
  {
    assert DistinctIds(after);
    forall id | id in ById(before) ensures id in ById(after) {
      var i := SamePlace(after, before, id);
    }
    forall id | id in ById(after) ensures id in ById(before) {
      var i := SamePlace(before, after, id);
    }
  }

  lemma PackwiseSameDirect(before: seq<Resource>, after: seq<Resource>)
    requires DistinctIds(before) && SameIds(before, after) && KeepsDirect(before, after)
    ensures DistinctIds(after)
    ensures SameDirect(ById(after), ById(before)) && NoRepeatedRelationships(ById(after))
  {
    SameKeys(before, after);
    forall id | id in ById(after)
      ensures id in ById(before) && SameDirectAt(ById(after)[id], ById(before)[id])
        && DirectOnce(ById(after)[id].relationships)
    {
      SameDirectById(before, after, id);
    }
  }

  lemma PartlyComposedSameDirect(before: seq<Resource>, after: seq<Resource>, n: nat, isReferenceName: string -> bool,
                                 collation: (string, string) -> bool)
    requires DistinctIds(before) && n <= |before| && NoRepeatedRelationships(ById(before))
    requires ComposedUpTo(before, after, n, isReferenceName, collation)
    ensures DistinctIds(after)
    ensures SameDirect(ById(after), ById(before)) && NoRepeatedRelationships(ById(after))
  {
    forall i | 0 <= i < |before|
      ensures after[i].id == before[i].id && SameDirectAt(after[i], before[i]) && DirectOnce(after[i].relationships)
    {
      ByIdFinds(before, i);
      if i < n {
        ComposedSameDirect(ById(before), before[i], after[i], isReferenceName, collation);
      }
    }
    PackwiseSameDirect(before, after);
  }

  lemma ComposableIdsSame(p: ResourceMap, q: ResourceMap, root: string)
    requires SameDirect(p, q) && ComposedIdsDistinct(q, root)
    ensures ComposedIdsDistinct(p, root)
  {
    forall a, b | Composable(p, root, a) && Composable(p, root, b) && JoinedId(a) == JoinedId(b) ensures a == b {
      ComposableSame(p, q, root, a);
      ComposableSame(p, q, root, b);
    }
  }

  /** One iteration of the outer loop: compose resource k of the array as it currently is. */
  method ComposeNext(ghost before: seq<Resource>, current: seq<Resource>, k: nat, isReferenceName: string -> bool,
                     collation: (string, string) -> bool)
    returns (composed: seq<Relationship>)
    requires DistinctIds(before) && k < |before| && NoRepeatedRelationships(ById(before))
    requires TotalOrder(collation) && forall id :: ComposedIdsDistinct(ById(before), id)
    requires ComposedUpTo(before, current, k, isReferenceName, collation)
    ensures Composed(ById(before), before[k], current[k].(relationships := composed), isReferenceName, collation)
  {
    var pack := ById(current);
    PartlyComposedSameDirect(before, current, k, isReferenceName, collation);
    ByIdFinds(current, k);
    ByIdFinds(before, k);
    var root := current[k].id;
    ComposableIdsSame(pack, ById(before), root);
    composed := ComposeRoot(pack, root, isReferenceName, collation);
    ComposedForSame(pack, ById(before), root, isReferenceName, collation, composed);
  }

  /** Adds the composed paths to every resource, updating the array while traversing it. */
  method AddComposedExplorationPaths(resources: array<Resource>, isReferenceName: string -> bool,
                                     collation: (string, string) -> bool)
    requires DistinctIds(resources[..]) && NoRepeatedRelationships(ById(resources[..]))
    requires TotalOrder(collation) && forall id :: ComposedIdsDistinct(ById(resources[..]), id)
    modifies resources
    ensures ComposedUpTo(old(resources[..]), resources[..], resources.Length, isReferenceName, collation)
  {
    ghost var before := resources[..];
    var k := 0;
    while k < resources.Length
      invariant k <= resources.Length
      invariant ComposedUpTo(before, resources[..], k, isReferenceName, collation)
    {
      ghost var current := resources[..];
      var composed := ComposeNext(before, resources[..], k, isReferenceName, collation);
      resources[k] := resources[k].(relationships := composed);
      assert resources[..] == current[k := current[k].(relationships := composed)];
      k := k + 1;
    }
  }

  // ---- What composing guarantees

  /** Whatever order the resources are visited in, each one ends with the same relationships. */
  lemma OrderDoesNotMatter(before: seq<Resource>, after: seq<Resource>, before': seq<Resource>, after': seq<Resource>,
                           isReferenceName: string -> bool, collation: (string, string) -> bool, i: nat, j: nat)
    requires DistinctIds(before) && DistinctIds(before') && (forall r :: r in before <==> r in before')
    requires TotalOrder(collation) && forall id :: ComposedIdsDistinct(ById(before), id)
    requires ComposedUpTo(before, after, |before|, isReferenceName, collation)
    requires ComposedUpTo(before', after', |before'|, isReferenceName, collation)
    requires i < |before| && j < |before'| && before[i].id == before'[j].id
    ensures after[i] == after'[j]
  {
    ByIdForgetsOrder(before, before');
    ByIdFinds(before, i);
    ByIdFinds(before', j);
    assert Composed(ById(before), before[i], after[i], isReferenceName, collation);
    assert Composed(ById(before'), before'[j], after'[j], isReferenceName, collation);
    ComposedForUnique(ById(before), before[i].id, isReferenceName, collation, after[i].relationships,
      after'[j].relationships);
  }

  /** The added records are chosen composites; no relationship of the root is lost. */
  lemma PlacedMembers(own: seq<Relationship>, ranked: seq<Relationship>, collation: (string, string) -> bool,
                      r: Relationship)
    ensures r in Placed(own, ranked, collation) <==> r in own || r in Chosen(ranked, 2) || r in Chosen(ranked, 3)
  {
    MultisetMembers(Placed(own, ranked, collation), own + Chosen(ranked, 2) + Chosen(ranked, 3));
  }

  lemma AddedIsUnambiguous(pack: ResourceMap, root: string, isReferenceName: string -> bool,
                           collation: (string, string) -> bool, result: seq<Relationship>, r: Relationship)
    requires root in pack && ComposedFor(pack, root, isReferenceName, collation, result)
    requires r in result && r !in pack[root].relationships
    ensures Unambiguous(pack, root, r)
  {
    var ranked :| Ranked(pack, root, collation, ranked)
      && result == Placed(pack[root].relationships, ranked, collation);
    PlacedMembers(pack[root].relationships, ranked, collation, r);
    var depth := if r in Chosen(ranked, 2) then 2 else 3;
    TakeMembers(Filter(ranked, OfDepth(depth)), MAX_COMPOSED_PER_DEPTH);
    FilterMembers(ranked, OfDepth(depth));
  }

  /**
   Every relationship that was not there before is the record of a simple contiguous path of
   two or three direct hops, to a resource with no direct relationship, and every other
   composable path to that resource is longer.
   */
  lemma AddedPathsAreUniqueShortest(before: seq<Resource>, after: seq<Resource>, isReferenceName: string -> bool,
                                    collation: (string, string) -> bool, i: nat, r: Relationship)
    returns (path: Path)
    requires ComposedUpTo(before, after, |before|, isReferenceName, collation) && i < |before|
    requires r in after[i].relationships && r !in before[i].relationships
    ensures ComposedAs(ById(before), before[i].id, path, r)
    ensures 2 <= |path| <= 3 && r.Depth() == |path|
    ensures r.target !in DirectTargets(before[i]) && r.target != before[i].id
    ensures forall a, b | 0 <= a < b < |path| :: path[a].target != path[b].target
  {
    assert Composed(ById(before), before[i], after[i], isReferenceName, collation);
    AddedIsUnambiguous(ById(before), before[i].id, isReferenceName, collation, after[i].relationships, r);
    path := UnambiguousPath(ById(before), before[i].id, r);
  }

  lemma UnambiguousPath(pack: ResourceMap, root: string, r: Relationship) returns (path: Path)
    requires Unambiguous(pack, root, r)
    ensures ComposedAs(pack, root, path, r)
    ensures root in pack && 2 <= |path| <= 3 && r.Depth() == |path|
    ensures r.target !in DirectTargets(pack[root]) && r.target != root
    ensures forall a, b | 0 <= a < b < |path| :: path[a].target != path[b].target
  {
    path :| ComposedAs(pack, root, path, r);
    ComposableIsSimple(pack, root, path);
  }

  lemma ComposableIsSimple(pack: ResourceMap, root: string, path: Path)
    requires Composable(pack, root, path)
    ensures 2 <= |path| <= MAX_ANALYSIS_HOPS && LastTarget(path) != root
    ensures forall a, b | 0 <= a < b < |path| :: path[a].target != path[b].target
  {
    assert path[|path| - 1].target !in {root};
  }

  /** Per depth at most three are chosen, and what is left out ranks no higher than the chosen. */
  lemma ChosenAreBest(pack: ResourceMap, root: string, collation: Collation, ranked: seq<Relationship>, depth: nat,
                      left: Relationship)
    requires Ranked(pack, root, collation, ranked) && TotalOrder(collation)
    ensures |Chosen(ranked, depth)| <= 3
    ensures Unambiguous(pack, root, left) && left.pathDepth == Some(depth) && left !in Chosen(ranked, depth) ==>
              && |Chosen(ranked, depth)| == 3
              && forall c | c in Chosen(ranked, depth) :: RankLe(ScoresOf(pack), collation, c, left)
  {
    var le := Rank(ScoresOf(pack), collation);
    var eligible := Filter(ranked, OfDepth(depth));
    FilterMembers(ranked, OfDepth(depth));
    FilterSorted(ranked, OfDepth(depth), le);
    if Unambiguous(pack, root, left) && left.pathDepth == Some(depth) && left !in Chosen(ranked, depth) {
      assert left in ranked && left in eligible;
      var j :| 0 <= j < |eligible| && eligible[j] == left;
      forall c | c in Chosen(ranked, depth) ensures RankLe(ScoresOf(pack), collation, c, left) {
        var k :| 0 <= k < |Chosen(ranked, depth)| && Chosen(ranked, depth)[k] == c;
        assert eligible[k] == c && k < j;
        assert le(eligible[k], eligible[j]);
      }
    }
  }

  lemma ChosenHaveDepth(ranked: seq<Relationship>, depth: nat)
    ensures forall c | c in Chosen(ranked, depth) :: c.pathDepth == Some(depth)
  {
    TakeMembers(Filter(ranked, OfDepth(depth)), MAX_COMPOSED_PER_DEPTH);
    FilterMembers(ranked, OfDepth(depth));
  }

  /** What was added to the relationships of a resource at one depth. */
  ghost predicate AddedAt(was: Resource, now: Resource, depth: nat, r: Relationship) {
    r in now.relationships && r !in was.relationships && r.pathDepth == Some(depth)
  }

  /**
   At most three relationships of each depth are added to a resource, all of them two or three
   hops deep; and an unambiguous path stays out only when three of its depth, ranked no lower,
   are there.
   */
  lemma AtMostThreePerDepth(before: seq<Resource>, after: seq<Resource>, isReferenceName: string -> bool,
                            collation: Collation, i: nat, depth: nat)
    returns (chosen: seq<Relationship>)
    requires ComposedUpTo(before, after, |before|, isReferenceName, collation) && i < |before| && TotalOrder(collation)
    ensures |chosen| <= 3 && forall r | r in chosen :: r in after[i].relationships
    ensures forall r | AddedAt(before[i], after[i], depth, r) :: r in chosen
    ensures depth != 2 && depth != 3 ==> chosen == []
    ensures FactShaped(before[i], isReferenceName) && (depth == 2 || depth == 3) ==>
      forall left | Unambiguous(ById(before), before[i].id, left) && left.pathDepth == Some(depth)
                    && left !in after[i].relationships ::
        && |chosen| == 3
        && forall c | c in chosen :: RankLe(ScoresOf(ById(before)), collation, c, left)
  {
    var pack, root := ById(before), before[i].id;
    assert Composed(pack, before[i], after[i], isReferenceName, collation);
    chosen := [];
    if FactShaped(before[i], isReferenceName) {
      var ranked :| Ranked(pack, root, collation, ranked)
        && after[i].relationships == Placed(before[i].relationships, ranked, collation);
      PlacedByDepth(before[i].relationships, ranked, collation, depth);
      if depth == 2 || depth == 3 {
        chosen := Chosen(ranked, depth);
        LeftOutRanksLower(pack, root, collation, ranked, depth);
      }
    }
  }

  /** Of one depth, the placed list holds the root's own and the chosen ones. */
  lemma PlacedByDepth(own: seq<Relationship>, ranked: seq<Relationship>, collation: Collation, depth: nat)
    ensures forall r | r in Placed(own, ranked, collation) && r.pathDepth == Some(depth) ::
      r in own || ((depth == 2 || depth == 3) && r in Chosen(ranked, depth))
    ensures depth == 2 || depth == 3 ==> forall r | r in Chosen(ranked, depth) :: r in Placed(own, ranked, collation)
  {
    ChosenHaveDepth(ranked, 2);
    ChosenHaveDepth(ranked, 3);
    forall r ensures r in Placed(own, ranked, collation) <==>
      r in own || r in Chosen(ranked, 2) || r in Chosen(ranked, 3)
    {
      PlacedMembers(own, ranked, collation, r);
    }
  }

  lemma LeftOutRanksLower(pack: ResourceMap, root: string, collation: Collation, ranked: seq<Relationship>, depth: nat)
    requires Ranked(pack, root, collation, ranked) && TotalOrder(collation)
    ensures |Chosen(ranked, depth)| <= 3
    ensures forall left | Unambiguous(pack, root, left) && left.pathDepth == Some(depth)
                          && left !in Chosen(ranked, depth) ::
      && |Chosen(ranked, depth)| == 3
      && forall c | c in Chosen(ranked, depth) :: RankLe(ScoresOf(pack), collation, c, left)
  {
    TakeMembers(Filter(ranked, OfDepth(depth)), MAX_COMPOSED_PER_DEPTH);
    forall left | Unambiguous(pack, root, left) && left.pathDepth == Some(depth) && left !in Chosen(ranked, depth)
      ensures |Chosen(ranked, depth)| == 3
      ensures forall c | c in Chosen(ranked, depth) :: RankLe(ScoresOf(pack), collation, c, left)
    {
      ChosenAreBest(pack, root, collation, ranked, depth, left);
    }
  }
}
