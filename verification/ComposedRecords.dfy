/**
 What a composed relationship records, and which ones a resource gets. The record joins exactly
 what its hops join one after the other, and every clause below speaks of the record alone: its
 links, columns, id, nullability, place in the list and rank.
 */
module ComposedRecords {
  import opened Catalog
  import opened Pack
  import opened Relational
  import opened Sequences
  import opened ComposedPaths

  // ---- The links of a record

  /** Every direct relationship with one link leads along it from its own resource to its target. */
  ghost predicate LinksRunAlong(pack: ResourceMap) {
    forall id, x | id in pack && x in pack[id].relationships && Direct(x) && |x.Links()| == 1 ::
      x.Links()[0].source == id && x.Links()[0].target == x.target
  }

  lemma {:induction false} LinkOfHop(path: Path, k: nat)
    requires (forall i | 0 <= i < |path| :: |path[i].Links()| == 1) && k < |path|
    ensures |LinksOf(path)| == |path| && LinksOf(path)[k] == path[k].Links()[0]
  {
    var init := path[..|path| - 1];
    if init != [] {
      LinkOfHop(init, if k < |init| then k else 0);
    }
  }

  /** One link per hop, leaving the root, each where the one before it arrived, ending at the target. */
  ghost predicate LinksLead(links: seq<Link>, root: string, target: string) {
    && links != [] && links[0].source == root && links[|links| - 1].target == target
    && forall k | 0 <= k < |links| - 1 :: links[k + 1].source == links[k].target
  }

  lemma ComposableHop(pack: ResourceMap, root: string, path: Path, k: nat)
    requires LinksRunAlong(pack) && Composable(pack, root, path) && k < |path|
    ensures path[k].pathDepth == Some(1) && |path[k].Links()| == 1
    ensures HopSource(root, path, k) in pack && path[k] in pack[HopSource(root, path, k)].relationships
    ensures path[k].Links()[0].source == HopSource(root, path, k) && path[k].Links()[0].target == path[k].target
  {
    assert DeclaredHop(pack, root, path, k);
  }

  lemma RecordLink(pack: ResourceMap, root: string, path: Path, k: nat)
    requires LinksRunAlong(pack) && Composable(pack, root, path) && k < |path|
    ensures |LinksOf(path)| == |path| && path[k].Links() == [LinksOf(path)[k]]
    ensures LinksOf(path)[k].source == HopSource(root, path, k) && LinksOf(path)[k].target == path[k].target
  {
    forall i | 0 <= i < |path| ensures |path[i].Links()| == 1 {
      ComposableHop(pack, root, path, i);
    }
    LinkOfHop(path, k);
    ComposableHop(pack, root, path, k);
  }

  lemma RecordLinksLead(pack: ResourceMap, root: string, path: Path)
    requires LinksRunAlong(pack) && Composable(pack, root, path)
    ensures |LinksOf(path)| == |path|
    ensures LinksLead(LinksOf(path), root, LastTarget(path))
  {
    forall k | 0 <= k < |path|
      ensures |LinksOf(path)| == |path|
      ensures LinksOf(path)[k].source == HopSource(root, path, k) && LinksOf(path)[k].target == path[k].target
    {
      RecordLink(pack, root, path, k);
    }
  }

  // ---- What the record joins

  /** The rows reached by joining along one relationship after the other. */
  function Followed(db: Database, path: Path, from: nat, row: Row): seq<Row>
    decreases |path| - from, 0, 0
  {
    if from >= |path| then [row] else FollowedFromAll(db, path, from + 1, Reached(db, path[from].Links(), 0, row))
  }

  function FollowedFromAll(db: Database, path: Path, from: nat, rows: seq<Row>): seq<Row>
    decreases |path| - from, 1, |rows|
  {
    if rows == [] then [] else Followed(db, path, from, rows[0]) + FollowedFromAll(db, path, from, rows[1..])
  }

  lemma {:induction false} EndOfPath(db: Database, links: seq<Link>, rows: seq<Row>)
    ensures ReachedFromAll(db, links, |links|, rows) == rows
  {
    if rows != [] {
      EndOfPath(db, links, rows[1..]);
      assert rows == [rows[0]] + rows[1..];
    }
  }

  lemma OneLinkReaches(db: Database, r: Relationship, row: Row)
    requires |r.Links()| == 1
    ensures Reached(db, r.Links(), 0, row) == Joined(r.Links()[0], row, Rows(db, r.Links()[0].target))
  {
    EndOfPath(db, r.Links(), Joined(r.Links()[0], row, Rows(db, r.Links()[0].target)));
  }

  ghost predicate HopLinks(path: Path, links: seq<Link>) {
    |links| == |path| && forall k | 0 <= k < |path| :: path[k].Links() == [links[k]]
  }

  lemma {:induction false} JoinsHopByHop(db: Database, path: Path, links: seq<Link>, from: nat, row: Row)
    requires HopLinks(path, links)
    ensures Reached(db, links, from, row) == Followed(db, path, from, row)
    decreases |path| - from, 0, 0
  {
    if from < |path| {
      OneLinkReaches(db, path[from], row);
      JoinsAllHopByHop(db, path, links, from + 1, Joined(links[from], row, Rows(db, links[from].target)));
    }
  }

  lemma {:induction false} JoinsAllHopByHop(db: Database, path: Path, links: seq<Link>, from: nat, rows: seq<Row>)
    requires HopLinks(path, links)
    ensures ReachedFromAll(db, links, from, rows) == FollowedFromAll(db, path, from, rows)
    decreases |path| - from, 1, |rows|
  {
    if rows != [] {
      JoinsHopByHop(db, path, links, from, rows[0]);
      JoinsAllHopByHop(db, path, links, from, rows[1..]);
    }
  }

  // ---- The record as a whole

  /** The record names its hops by their joined ids, and its own columns at both ends. */
  predicate NamesHops(r: Relationship, path: Path, primaryKey: string) {
    && 2 <= |path| <= 3
    && r.id == (if |path| == 2 then path[0].id + "__" + path[1].id
                else path[0].id + "__" + path[1].id + "__" + path[2].id)
    && r.localColumns == path[0].localColumns
    && r.targetColumns == path[|path| - 1].targetColumns
    && r.countedEntity == primaryKey
  }

  /** A catalog proof over exactly these links; rows may go unmatched exactly when some link is nullable. */
  ghost predicate ProvesItself(r: Relationship) {
    && r.proof.Some? && r.proof.value.source == "database_catalog"
    && r.proof.value.digest == LinkDigest(r.Links())
    && (r.nullable == Some(true) <==> exists k | 0 <= k < |r.Links()| :: r.Links()[k].nullable)
    && (r.nullable == Some(false) <==> forall k | 0 <= k < |r.Links()| :: !r.Links()[k].nullable)
    && (r.unmatchedRows == Some(ReviewRequired) <==> r.nullable == Some(true))
    && (r.unmatchedRows == Some(Exclude) <==> r.nullable == Some(false))
  }

  lemma IdOfHops(path: Path)
    requires 2 <= |path| <= 3
    ensures JoinedId(path) == if |path| == 2 then path[0].id + "__" + path[1].id
      else path[0].id + "__" + path[1].id + "__" + path[2].id
  {
    var init := path[..|path| - 1];
    assert init == if |path| == 2 then [path[0]] else [path[0], path[1]];
    if |path| == 3 {
      assert [path[0], path[1]][..1] == [path[0]];
    }
  }

  lemma RecordOfPath(pack: ResourceMap, root: string, path: Path, r: Relationship)
    requires ComposedAs(pack, root, path, r)
    ensures NamesHops(r, path, pack[root].primaryKey) && ProvesItself(r) && r.Links() == LinksOf(path)
    ensures r.target == LastTarget(path) && r.pathDepth == Some(|path|)
  {
    IdOfHops(path);
  }

  /** Link k of the record is the one link of hop k, a direct relationship of the resource it leaves. */
  ghost predicate RecordsHop(pack: ResourceMap, links: seq<Link>, path: Path, k: nat)
    requires k < |links| && k < |path|
  {
    && links[k].source in pack && path[k] in pack[links[k].source].relationships
    && path[k].pathDepth == Some(1) && path[k].Links() == [links[k]]
  }

  /** The record stands for the path: the same hops in the same order, through different resources. */
  ghost predicate StandsFor(pack: ResourceMap, root: string, r: Relationship, path: Path) {
    && 2 <= |r.Links()| <= 3 && |path| == |r.Links()| && r.pathDepth == Some(|path|)
    && LinksLead(r.Links(), root, r.target)
    && (forall k | 0 <= k < |path| :: RecordsHop(pack, r.Links(), path, k))
    && (forall a, b | 0 <= a < b < |path| :: r.Links()[a].target != r.Links()[b].target)
  }

  lemma RecordStandsForPath(pack: ResourceMap, root: string, path: Path, r: Relationship)
    requires LinksRunAlong(pack) && ComposedAs(pack, root, path, r)
    ensures StandsFor(pack, root, r, path)
  {
    RecordOfPath(pack, root, path, r);
    RecordLinksLead(pack, root, path);
    forall k | 0 <= k < |path|
      ensures RecordsHop(pack, LinksOf(path), path, k) && LinksOf(path)[k].target == path[k].target
    {
      RecordLink(pack, root, path, k);
      ComposableHop(pack, root, path, k);
    }
    ComposableIsSimple(pack, root, path);
  }

  /**
   An added relationship, as it is recorded: its links lead from the root to its target through
   different resources, as many as it is deep, each that of a direct relationship; it names its
   hops, and joins in every database what they join one after the other.
   */
  lemma AddedRecord(before: seq<Resource>, after: seq<Resource>, isReferenceName: string -> bool,
                    collation: Collation, i: nat, r: Relationship, db: Database, row: Row)
    returns (path: Path)
    requires ComposedUpTo(before, after, |before|, isReferenceName, collation) && i < |before|
    requires r in after[i].relationships && r !in before[i].relationships && LinksRunAlong(ById(before))
    ensures StandsFor(ById(before), before[i].id, r, path)
    ensures NamesHops(r, path, before[i].primaryKey) && ProvesItself(r)
    ensures Reached(db, r.Links(), 0, row) == Followed(db, path, 0, row)
  {
    path := AddedPathsAreUniqueShortest(before, after, isReferenceName, collation, i, r);
    assert Composed(ById(before), before[i], after[i], isReferenceName, collation);
    RecordOfPath(ById(before), before[i].id, path, r);
    RecordStandsForPath(ById(before), before[i].id, path, r);
    StandingJoins(ById(before), before[i].id, r, path, db, row);
  }

  lemma StandingJoins(pack: ResourceMap, root: string, r: Relationship, path: Path, db: Database, row: Row)
    requires StandsFor(pack, root, r, path)
    ensures Reached(db, r.Links(), 0, row) == Followed(db, path, 0, row)
  {
    forall k | 0 <= k < |path| ensures path[k].Links() == [r.Links()[k]] {
      assert RecordsHop(pack, r.Links(), path, k);
    }
    JoinsHopByHop(db, path, r.Links(), 0, row);
  }

  // ---- Which records a resource gets

  /** At most one relationship, only reference-like measures, no time buckets, nothing to group a relationship by. */
  predicate HasNoFacts(r: Resource, isReferenceName: string -> bool) {
    && |r.relationships| <= 1
    && (forall f | f in r.aggregates :: isReferenceName(f))
    && r.timeBuckets == map[]
    && (r.relationships == [] || r.groupable == [])
  }

  lemma FactsAreShaped(r: Resource, isReferenceName: string -> bool)
    ensures HasNoFacts(r, isReferenceName) <==> !FactShaped(r, isReferenceName)
  {
    if !FactShaped(r, isReferenceName) {
      forall f | f in r.aggregates ensures isReferenceName(f) {
        var i :| 0 <= i < |r.aggregates| && r.aggregates[i] == f;
      }
      assert |r.timeBuckets| == 0;
    }
    if HasNoFacts(r, isReferenceName) {
      forall i | 0 <= i < |r.aggregates| ensures isReferenceName(r.aggregates[i]) {
        assert r.aggregates[i] in r.aggregates;
      }
    }
  }

  /** A resource without facts keeps its list as it is; any other keeps every relationship it had. */
  lemma WhatComposingKeeps(before: seq<Resource>, after: seq<Resource>, isReferenceName: string -> bool,
                           collation: Collation, i: nat)
    requires ComposedUpTo(before, after, |before|, isReferenceName, collation) && i < |before|
    ensures after[i] == before[i].(relationships := after[i].relationships)
    ensures HasNoFacts(before[i], isReferenceName) ==> after[i].relationships == before[i].relationships
    ensures multiset(before[i].relationships) <= multiset(after[i].relationships)
  {
    assert Composed(ById(before), before[i], after[i], isReferenceName, collation);
    FactsAreShaped(before[i], isReferenceName);
    if FactShaped(before[i], isReferenceName) {
      var ranked :| Ranked(ById(before), before[i].id, collation, ranked)
        && after[i].relationships == Placed(before[i].relationships, ranked, collation);
      assert multiset(after[i].relationships)
        == multiset(before[i].relationships + Chosen(ranked, 2) + Chosen(ranked, 3));
    }
  }

  /** Shallower relationships come first, those of one depth in the order of their ids. */
  ghost predicate ShallowFirst(rs: seq<Relationship>, collation: Collation) {
    forall i, j | 0 <= i < j < |rs| ::
      rs[i].Depth() < rs[j].Depth() || (rs[i].Depth() == rs[j].Depth() && collation(rs[i].id, rs[j].id))
  }

  lemma ListedIsPreorder(collation: Collation)
    requires TotalOrder(collation)
    ensures TotalPreorder(Listed(collation))
  {
    var le := Listed(collation);
    forall x, y ensures le(x, y) || le(y, x) {
      assert ListedLe(collation, x, y) || ListedLe(collation, y, x);
    }
    forall x, y, z | le(x, y) && le(y, z) ensures le(x, z) {
      assert ListedLe(collation, x, y) && ListedLe(collation, y, z);
      assert ListedLe(collation, x, z);
    }
  }

  lemma ComposedListOrdered(before: seq<Resource>, after: seq<Resource>, isReferenceName: string -> bool,
                            collation: Collation, i: nat)
    requires ComposedUpTo(before, after, |before|, isReferenceName, collation) && i < |before|
    requires TotalOrder(collation) && !HasNoFacts(before[i], isReferenceName)
    ensures ShallowFirst(after[i].relationships, collation)
  {
    assert Composed(ById(before), before[i], after[i], isReferenceName, collation);
    FactsAreShaped(before[i], isReferenceName);
    var ranked :| Ranked(ById(before), before[i].id, collation, ranked)
      && after[i].relationships == Placed(before[i].relationships, ranked, collation);
    ListedIsPreorder(collation);
    var all := before[i].relationships + Chosen(ranked, 2) + Chosen(ranked, 3);
    SortSorted(all, Listed(collation));
    var rs := after[i].relationships;
    forall a, b | 0 <= a < b < |rs|
      ensures rs[a].Depth() < rs[b].Depth() || (rs[a].Depth() == rs[b].Depth() && collation(rs[a].id, rs[b].id))
    {
      assert Listed(collation)(rs[a], rs[b]);
    }
  }

  /** How much a resource offers for analysis. */
  function Worth(r: Resource): nat {
    4 * |r.groupable| + 3 * |r.timeBuckets| + |r.selectable|
  }

  /** a leads to a resource worth more than b's, or worth as much with an id no later. */
  predicate WorthFirst(pack: ResourceMap, collation: Collation, a: Relationship, b: Relationship)
    requires a.target in pack && b.target in pack
  {
    var wa, wb := Worth(pack[a.target]), Worth(pack[b.target]);
    wa > wb || (wa == wb && collation(a.id, b.id))
  }

  lemma UnambiguousTarget(pack: ResourceMap, root: string, r: Relationship)
    requires Unambiguous(pack, root, r)
    ensures r.target in pack && r.pathDepth.Some? && 2 <= r.pathDepth.value <= 3
  {
    var path :| ComposedAs(pack, root, path, r);
    assert DeclaredHop(pack, root, path, |path| - 1);
  }

  /**
   Which unambiguous path stays out of a resource with facts: three of its depth are there
   instead, each leading to a resource worth more, or worth as much with an id no later.
   */
  lemma LeftOutForBetter(before: seq<Resource>, after: seq<Resource>, isReferenceName: string -> bool,
                         collation: Collation, i: nat, left: Relationship)
    returns (chosen: seq<Relationship>)
    requires ComposedUpTo(before, after, |before|, isReferenceName, collation) && i < |before|
    requires TotalOrder(collation) && !HasNoFacts(before[i], isReferenceName)
    requires Unambiguous(ById(before), before[i].id, left) && left !in after[i].relationships
    ensures |chosen| == 3 && left.target in ById(before)
    ensures forall c | c in chosen ::
      && c in after[i].relationships && c.pathDepth == left.pathDepth
      && c.target in ById(before) && WorthFirst(ById(before), collation, c, left)
  {
    var pack, root := ById(before), before[i].id;
    FactsAreShaped(before[i], isReferenceName);
    UnambiguousTarget(pack, root, left);
    assert Composed(pack, before[i], after[i], isReferenceName, collation);
    var ranked :| Ranked(pack, root, collation, ranked)
      && after[i].relationships == Placed(before[i].relationships, ranked, collation);
    var depth := left.pathDepth.value;
    PlacedByDepth(before[i].relationships, ranked, collation, depth);
    ChosenAreBest(pack, root, collation, ranked, depth, left);
    ChosenHaveDepth(ranked, depth);
    chosen := Chosen(ranked, depth);
    forall c | c in chosen ensures c.target in pack && WorthFirst(pack, collation, c, left) {
      TakeMembers(Filter(ranked, OfDepth(depth)), MAX_COMPOSED_PER_DEPTH);
      FilterMembers(ranked, OfDepth(depth));
      UnambiguousTarget(pack, root, c);
      assert RankLe(ScoresOf(pack), collation, c, left);
    }
  }
}
