/**
 The validator of a reviewed scope path, and what a validated path means for rows: the
 mandatory inner join to the ancestor neither drops nor duplicates a root row, so reading
 through it with a tenant predicate is the same as filtering the root table by its owner.
 */
module ScopeProof {
  import opened Catalog
  import opened Evidence
  import opened Pack
  import opened Relational
  import opened ScopeSearch

  // ---- What the validator accepts

  predicate LinkWellFormed(l: Link) {
    && !l.nullable
    && l.cardinality == ManyToOne
    && l.maxFanOut == 1
    && |l.sourceColumns| >= 1
    && |l.sourceColumns| == |l.targetColumns|
    && l.uniqueness.columns == l.targetColumns
  }

  predicate HeaderWellFormed(scope: ScopePath, maximumHops: nat) {
    && 1 <= |scope.proof.links| <= maximumHops
    && scope.mode == "derived"
    && scope.proof.source == DATABASE_CATALOG
    && LinkDigest(scope.proof.links) == scope.proof.digest
    && scope.pathId == PathId(scope.proof.links)
  }

  /** A non-null link, column by column, into a key that is unique over just these columns. */
  ghost predicate LeadsToOne(l: Link) {
    && l.nullable == false && l.cardinality.ManyToOne? && l.maxFanOut == 1
    && l.sourceColumns != [] && |l.targetColumns| == |l.sourceColumns|
    && l.targetColumns == l.uniqueness.columns
  }

  ghost predicate LinkInside(root: string, links: seq<Link>, i: nat, resources: map<string, Resource>)
    requires i < |links|
  {
    && LeadsToOne(links[i])
    && links[i].source == SourceAt(root, links, i)
    && links[i].source in resources
    && links[i].target in resources
    && links[i].target != root
  }

  /** The first n links form a continuous simple path out of `root` inside the reviewed resources. */
  ghost predicate ContinuousUpTo(root: string, links: seq<Link>, n: nat, resources: map<string, Resource>)
    requires n <= |links|
  {
    && (forall i | 0 <= i < n :: LinkInside(root, links, i, resources))
    && (forall i, j | 0 <= i < j < n :: links[i].target != links[j].target)
  }

  ghost predicate ContinuousInside(root: string, links: seq<Link>, resources: map<string, Resource>) {
    ContinuousUpTo(root, links, |links|, resources)
  }

  ghost predicate ScopeProven(root: string, scope: ScopePath, resources: map<string, Resource>, kind: ScopeKind,
                              maximumHops: nat)
  {
    && scope.mode == "derived" && scope.proof.source == "database_catalog"
    && scope.proof.links != [] && |scope.proof.links| <= maximumHops
    && scope.proof.digest.links == scope.proof.links && scope.pathId == PathId(scope.proof.links)
    && ContinuousInside(root, scope.proof.links, resources)
    && SourceAt(root, scope.proof.links, |scope.proof.links|) == scope.ancestor
    && scope.ancestor in resources
    && DirectColumn(resources[scope.ancestor], kind) == Some(scope.column)
  }

  /** The validator: true where the original returns, false where it throws. */
  method AssertDerivedScopePath(root: string, scope: ScopePath, resources: map<string, Resource>, kind: ScopeKind,
                                maximumHops: nat)
    returns (accepted: bool)
    ensures accepted <==> ScopeProven(root, scope, resources, kind, maximumHops)
  {
    var links := scope.proof.links;
    if !HeaderWellFormed(scope, maximumHops) {
      return false;
    }
    var expectedSource := root;
    var visited := {root};
    var k := 0;
    while k < |links|
      invariant k <= |links|
      invariant expectedSource == SourceAt(root, links, k)
      invariant forall t :: t in visited <==> t == root || exists i :: 0 <= i < k && links[i].target == t
      invariant ContinuousUpTo(root, links, k, resources)
    {
      var link := links[k];
      if link.source !in resources || link.target !in resources
        || link.source != expectedSource
        || link.target in visited
        || !LinkWellFormed(link)
      {
        assert LinkInside(root, links, k, resources) ==> link.target in visited && link.target != root;
        if link.target in visited && link.target != root {
          ghost var i :| 0 <= i < k && links[i].target == link.target;
          assert links[i].target == links[k].target;
        }
        return false;
      }
      expectedSource := link.target;
      visited := visited + {link.target};
      k := k + 1;
    }
    accepted := expectedSource == scope.ancestor
      && scope.ancestor in resources
      && DirectColumn(resources[scope.ancestor], kind) == Some(scope.column);
  }

  // ---- The search feeds the validator

  /** The reviewed resources carry the scope columns the evidence graph selected. */
  ghost predicate BoundaryAgrees(g: ScopeGraph, kind: ScopeKind, resources: map<string, Resource>) {
    forall id | id in resources :: id in g && DirectColumn(resources[id], kind) == ScopeColumn(g[id], kind)
  }

  lemma OfferedLinkInside(g: ScopeGraph, root: string, links: seq<Link>, i: nat, resources: map<string, Resource>)
    requires UniquenessRecorded(g) && Contiguous(g, root, links, 0) && Simple(g, {root}, links, 0) && i < |links|
    requires root in resources && (forall j | 0 <= j < |links| :: links[j].target in resources)
    ensures LinkInside(root, links, i, resources)
  {
    var at := SourceAt(root, links, i);
    assert ProvenHop(g, at, links[i]);
    var k: nat :| k < |g[at].relationships| && Describes(g[at].relationships[k], at, links[i]);
    assert links[i].target !in {root};
  }

  /** Every path the search offers passes the validator once its resources and hop limit are in. */
  lemma SearchPassesValidator(g: ScopeGraph, kind: ScopeKind, root: string, links: seq<Link>, c: ScopePath,
                              resources: map<string, Resource>, maximumHops: nat)
    requires UniquenessRecorded(g) && BoundaryAgrees(g, kind, resources)
    requires OfferedBy(g, kind, root, links, c)
    requires root in resources && (forall i | 0 <= i < |links| :: links[i].target in resources)
    requires |links| <= maximumHops
    ensures ScopeProven(root, c, resources, kind, maximumHops)
  {
    forall i | 0 <= i < |links| ensures LinkInside(root, links, i, resources) {
      OfferedLinkInside(g, root, links, i, resources);
    }
    assert ContinuousInside(root, links, resources);
    var ancestor := links[|links| - 1].target;
    assert CarriesScope(g, kind, ancestor);
  }

  // ---- What a validated path means for rows

  ghost predicate PathHolds(db: Database, links: seq<Link>) {
    forall i | 0 <= i < |links| :: LinkHolds(db, links[i])
  }

  /** A path of well-formed links, each leaving from where the previous one arrived. */
  ghost predicate Chain(root: string, links: seq<Link>) {
    forall i | 0 <= i < |links| :: LinkWellFormed(links[i]) && links[i].source == SourceAt(root, links, i)
  }

  lemma ReachedFromOne(db: Database, links: seq<Link>, from: nat, rows: seq<Row>)
    requires |rows| == 1
    ensures ReachedFromAll(db, links, from, rows) == Reached(db, links, from, rows[0])
  {
    assert ReachedFromAll(db, links, from, rows[1..]) == [];
  }

  /** From any position on, each row reaches exactly one row at the end of the path. */
  lemma {:induction false} ReachesExactlyOne(db: Database, root: string, links: seq<Link>, from: nat, row: Row)
    requires Chain(root, links) && PathHolds(db, links)
    requires from <= |links| && row in Rows(db, SourceAt(root, links, from))
    ensures |Reached(db, links, from, row)| == 1
    ensures Reached(db, links, from, row)[0] in Rows(db, SourceAt(root, links, |links|))
    decreases |links| - from
  {
    if from < |links| {
      var l := links[from];
      assert LinkHolds(db, l) && l.source == SourceAt(root, links, from) && LinkWellFormed(l);
      JoinedExactlyOne(db, l, row);
      var joined := Joined(l, row, Rows(db, l.target));
      ReachesExactlyOne(db, root, links, from + 1, joined[0]);
      ReachedFromOne(db, links, from + 1, joined);
    }
  }

  /** One output tuple of the join per ancestor row that carries the trusted value. */
  function Emitted(row: Row, ancestors: seq<Row>, column: string, trusted: int): seq<Row> {
    if ancestors == [] then []
    else
      (if At(ancestors[0], column) == Value(trusted) then [row] else [])
      + Emitted(row, ancestors[1..], column, trusted)
  }

  /** Root rows of the mandatory inner join along the path, restricted to one trusted value. */
  function ScopedRead(db: Database, links: seq<Link>, column: string, trusted: int, rows: seq<Row>): seq<Row> {
    if rows == [] then []
    else
      Emitted(rows[0], Reached(db, links, 0, rows[0]), column, trusted)
      + ScopedRead(db, links, column, trusted, rows[1..])
  }

  /** The value that owns a root row: the scope column of the ancestor it reaches. */
  function Owner(db: Database, links: seq<Link>, column: string, row: Row): Cell {
    var reached := Reached(db, links, 0, row);
    if reached == [] then Null else At(reached[0], column)
  }

  /** The root table filtered by owner, with no join at all. */
  function OwnedRows(db: Database, links: seq<Link>, column: string, trusted: int, rows: seq<Row>): seq<Row> {
    if rows == [] then []
    else (if Owner(db, links, column, rows[0]) == Value(trusted) then [rows[0]] else [])
         + OwnedRows(db, links, column, trusted, rows[1..])
  }

  lemma EmittedOnce(row: Row, ancestors: seq<Row>, column: string, trusted: int)
    requires |ancestors| == 1
    ensures Emitted(row, ancestors, column, trusted) == if At(ancestors[0], column) == Value(trusted) then [row] else []
  {
    assert Emitted(row, ancestors[1..], column, trusted) == [];
  }

  lemma {:induction false} JoinIsOwnerFilter(db: Database, root: string, links: seq<Link>, column: string, trusted: int,
                                             rows: seq<Row>)
    requires Chain(root, links) && PathHolds(db, links)
    requires forall row | row in rows :: row in Rows(db, root)
    ensures ScopedRead(db, links, column, trusted, rows) == OwnedRows(db, links, column, trusted, rows)
  {
    if rows != [] {
      ReachesExactlyOne(db, root, links, 0, rows[0]);
      EmittedOnce(rows[0], Reached(db, links, 0, rows[0]), column, trusted);
      JoinIsOwnerFilter(db, root, links, column, trusted, rows[1..]);
    }
  }

  /** The rows of two different trusted values never share an occurrence. */
  lemma {:induction false} OwnersPartition(db: Database, links: seq<Link>, column: string, a: int, b: int,
                                           rows: seq<Row>)
    requires a != b
    ensures multiset(OwnedRows(db, links, column, a, rows)) + multiset(OwnedRows(db, links, column, b, rows))
      <= multiset(rows)
  {
    if rows != [] {
      assert rows == [rows[0]] + rows[1..];
      OwnersPartition(db, links, column, a, b, rows[1..]);
    }
  }

  lemma ProvenIsChain(root: string, scope: ScopePath, resources: map<string, Resource>, kind: ScopeKind,
                      maximumHops: nat)
    requires ScopeProven(root, scope, resources, kind, maximumHops)
    ensures Chain(root, scope.proof.links)
  {
    var links := scope.proof.links;
    forall i | 0 <= i < |links| ensures LinkWellFormed(links[i]) && links[i].source == SourceAt(root, links, i) {
      assert LinkInside(root, links, i, resources);
    }
  }

  /**
   The guarantee of a validated scope path: in every database that obeys its links, reading
   the root through the mandatory join returns the root rows owned by the trusted value, with
   their multiplicities and in their order, and two trusted values never share a row.
   */
  lemma ValidatedScopeIsolates(root: string, scope: ScopePath, resources: map<string, Resource>, kind: ScopeKind,
                               maximumHops: nat, db: Database, a: int, b: int)
    requires ScopeProven(root, scope, resources, kind, maximumHops)
    requires PathHolds(db, scope.proof.links)
    ensures ScopedRead(db, scope.proof.links, scope.column, a, Rows(db, root))
         == OwnedRows(db, scope.proof.links, scope.column, a, Rows(db, root))
    ensures forall row | row in Rows(db, root) :: |Reached(db, scope.proof.links, 0, row)| == 1
    ensures a != b ==>
              multiset(ScopedRead(db, scope.proof.links, scope.column, a, Rows(db, root)))
              + multiset(ScopedRead(db, scope.proof.links, scope.column, b, Rows(db, root))) <= multiset(Rows(db, root))
  {
    var links := scope.proof.links;
    ProvenIsChain(root, scope, resources, kind, maximumHops);
    JoinIsOwnerFilter(db, root, links, scope.column, a, Rows(db, root));
    JoinIsOwnerFilter(db, root, links, scope.column, b, Rows(db, root));
    forall row | row in Rows(db, root) ensures |Reached(db, links, 0, row)| == 1 {
      ReachesExactlyOne(db, root, links, 0, row);
    }
    if a != b {
      OwnersPartition(db, links, scope.column, a, b, Rows(db, root));
    }
  }
}
