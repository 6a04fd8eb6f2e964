/**
 The drift check on recorded links: a link recorded from an inspection recomputes to itself,
 and a matching digest on a later inspection means every link is still a declared foreign
 key into a still-unique target key. Databases that conform to that inspection therefore
 give the validated scope path its full meaning.
 */
module Drift {
  import opened Catalog
  import opened Evidence
  import opened Pack
  import opened Relational
  import opened ScopeSearch
  import opened ScopeProof

  /** The foreign key is the one the link was recorded from. */
  predicate SameForeignKey(fk: ForeignKey, expected: Link, target: Table) {
    && fk.name == expected.constraintName
    && fk.referencedSchema == target.schema
    && fk.referencedTable == target.name
    && fk.columns == expected.sourceColumns
    && fk.referencedColumns == expected.targetColumns
  }

  function FindForeignKey(fks: seq<ForeignKey>, expected: Link, target: Table): (fk: Option<ForeignKey>)
    ensures fk.Some? ==> fk.value in fks && SameForeignKey(fk.value, expected, target)
    ensures fk.None? ==> forall i | 0 <= i < |fks| :: !SameForeignKey(fks[i], expected, target)
  {
    if fks == [] then None
    else if SameForeignKey(fks[0], expected, target) then Some(fks[0])
    else FindForeignKey(fks[1..], expected, target)
  }

  /** The link as the current inspection would record it, if it still declares it. */
  function CurrentLink(expected: Link, tables: Inspection): Option<Link> {
    if expected.source !in tables || expected.target !in tables then None
    else
      var source, target := tables[expected.source], tables[expected.target];
      var fk := FindForeignKey(source.foreignKeys, expected, target);
      if fk.None? then None
      else
        var uniqueness := TargetUniqueness(target, fk.value.referencedColumns);
        if uniqueness != Some(expected.uniqueness) then None
        else
          Some(Link(fk.value.name, expected.source, expected.target, fk.value.columns, fk.value.referencedColumns,
                    uniqueness.value, !KeyNotNull(source, fk.value.columns), ManyToOne, 1))
  }

  ghost predicate AllCurrent(expected: seq<Link>, tables: Inspection, current: seq<Link>) {
    && |current| == |expected|
    && forall i | 0 <= i < |expected| :: CurrentLink(expected[i], tables) == Some(current[i])
  }

  /** The recomputed digest, or None when some link is gone. */
  method DependencyFingerprint(links: seq<Link>, tables: Inspection) returns (digest: Option<LinkDigest>)
    ensures digest.Some? ==> AllCurrent(links, tables, digest.value.links)
    ensures digest.None? ==> exists i :: 0 <= i < |links| && CurrentLink(links[i], tables).None?
  {
    var current: seq<Link> := [];
    var k := 0;
    while k < |links|
      invariant k <= |links|
      invariant AllCurrent(links[..k], tables, current)
    {
      var link := CurrentLink(links[k], tables);
      if link.None? {
        return None;
      }
      assert links[..k + 1] == links[..k] + [links[k]];
      current := current + [link.value];
      k := k + 1;
    }
    assert links[..k] == links;
    return Some(LinkDigest(current));
  }

  // ---- Reflexivity

  /** l is what foreign key fk of `source` records. */
  ghost predicate RecordedBy(tables: Inspection, source: string, fk: ForeignKey, l: Link) {
    && source in tables
    && fk in tables[source].foreignKeys
    && QualifiedName(fk.referencedSchema, fk.referencedTable) in tables
    && var r := RelationshipEvidence(tables[source], fk, tables);
       r.targetUniqueness.Some? && l == LinkFor(source, r)
  }

  /** Schema and table are the referenced table's own, not another split of the same dotted name. */
  predicate ReferencesExactly(tables: Inspection, fk: ForeignKey) {
    var id := QualifiedName(fk.referencedSchema, fk.referencedTable);
    id in tables && tables[id].schema == fk.referencedSchema && tables[id].name == fk.referencedTable
  }

  predicate ConstraintNamesUnique(t: Table) {
    forall a, b | a in t.foreignKeys && b in t.foreignKeys && a.name == b.name :: a == b
  }

  /** A recorded link recomputes to itself exactly when its reference is not a dotted-name collision. */
  lemma RecordedLinkIsCurrent(tables: Inspection, source: string, fk: ForeignKey, l: Link)
    requires RecordedBy(tables, source, fk, l) && ConstraintNamesUnique(tables[source])
    ensures ReferencesExactly(tables, fk) <==> CurrentLink(l, tables) == Some(l)
    ensures !ReferencesExactly(tables, fk) ==> CurrentLink(l, tables).None?
  {
    var target := tables[l.target];
    var found := FindForeignKey(tables[source].foreignKeys, l, target);
    if ReferencesExactly(tables, fk) {
      assert SameForeignKey(fk, l, target);
      assert found.Some? && found.value == fk;
    } else {
      assert found.Some? ==> found.value == fk;
    }
  }

  /**
   The dotted name "a.b.c" read as table "c" of schema "a.b", while the foreign key means table
   "b.c" of schema "a": the link is recorded and never found again.
   */
  lemma DottedNameSplitsTwoWays() returns (tables: Inspection, fk: ForeignKey, l: Link)
    ensures tables == map[
      "a.b.c" := Table("a.b", "c", [], ["id"], [], [], []),
      "p.q" := Table("p", "q", [], [], [], [], [fk])]
    ensures WellKeyed(tables) && RecordedBy(tables, "p.q", fk, l) && ConstraintNamesUnique(tables["p.q"])
    ensures fk.referencedSchema == "a" && fk.referencedTable == "b.c"
    ensures CurrentLink(l, tables).None?
  {
    fk := ForeignKey("fk", ["x"], "a", "b.c", ["id"]);
    var target := Table("a.b", "c", [], ["id"], [], [], []);
    var source := Table("p", "q", [], [], [], [], [fk]);
    assert QualifiedName("a.b", "c") == "a.b.c" && QualifiedName("a", "b.c") == "a.b.c";
    assert QualifiedName("p", "q") == "p.q";
    tables := map["a.b.c" := target, "p.q" := source];
    l := LinkFor("p.q", RelationshipEvidence(source, fk, tables));
    assert !ReferencesExactly(tables, fk);
    RecordedLinkIsCurrent(tables, "p.q", fk, l);
  }

  /** A list of recorded links recomputes to itself exactly when every reference names its target exactly. */
  lemma RecordedLinksAreCurrent(tables: Inspection, links: seq<Link>, fks: seq<ForeignKey>)
    requires |fks| == |links|
    requires forall i | 0 <= i < |links| ::
      RecordedBy(tables, links[i].source, fks[i], links[i]) && ConstraintNamesUnique(tables[links[i].source])
    ensures AllCurrent(links, tables, links) <==> forall i | 0 <= i < |links| :: ReferencesExactly(tables, fks[i])
  {
    forall i | 0 <= i < |links|
      ensures CurrentLink(links[i], tables) == Some(links[i]) <==> ReferencesExactly(tables, fks[i])
    {
      RecordedLinkIsCurrent(tables, links[i].source, fks[i], links[i]);
    }
  }

  // ---- Soundness

  /** The inspection declares the link: same columns, same nullability, a unique target key. */
  ghost predicate Declares(tables: Inspection, l: Link) {
    && l.source in tables && l.target in tables
    && (exists fk | fk in tables[l.source].foreignKeys :: SameForeignKey(fk, l, tables[l.target]))
    && (l.nullable <==> !KeyNotNull(tables[l.source], l.sourceColumns))
    && DeclaresKey(tables[l.target], l.targetColumns)
    && TargetUniqueness(tables[l.target], l.targetColumns) == Some(l.uniqueness)
    && l.cardinality == ManyToOne && l.maxFanOut == 1
  }

  lemma MatchingDigestDeclares(tables: Inspection, links: seq<Link>, digest: LinkDigest)
    requires AllCurrent(links, tables, digest.links)
    ensures digest == LinkDigest(links) <==> forall i | 0 <= i < |links| :: Declares(tables, links[i])
  {
    forall i | 0 <= i < |links| ensures digest.links[i] == links[i] <==> Declares(tables, links[i]) {
      assert CurrentLink(links[i], tables) == Some(digest.links[i]);
    }
    if digest == LinkDigest(links) {
      assert forall i | 0 <= i < |links| :: digest.links[i] == links[i];
    }
    if forall i | 0 <= i < |links| :: Declares(tables, links[i]) {
      assert digest.links == links;
    }
  }

  // ---- Databases that conform to the inspection

  ghost predicate ReferencesHold(db: Database, id: string, fk: ForeignKey) {
    forall row | row in Rows(db, id) && Complete(Key(row, fk.columns)) ::
      exists t | t in Rows(db, QualifiedName(fk.referencedSchema, fk.referencedTable)) ::
        Key(t, fk.referencedColumns) == Key(row, fk.columns)
  }

  /** The database enforces what the inspection declares: keys, NOT NULL columns, foreign keys. */
  ghost predicate Conforms(tables: Inspection, db: Database) {
    forall id | id in tables ::
      && (forall columns | DeclaresKey(tables[id], columns) :: KeyUnique(Rows(db, id), columns))
      && (forall row, c | row in Rows(db, id) && ColumnNotNull(tables[id], c) :: At(row, c) != Null)
      && (forall fk | fk in tables[id].foreignKeys :: ReferencesHold(db, id, fk))
  }

  lemma DeclaredLinkHolds(tables: Inspection, db: Database, l: Link)
    requires WellKeyed(tables) && Conforms(tables, db) && Declares(tables, l)
    ensures LinkHolds(db, l)
  {
    var source := tables[l.source];
    var fk :| fk in source.foreignKeys && SameForeignKey(fk, l, tables[l.target]);
    assert tables[l.target].Id() == l.target;
    assert KeyUnique(Rows(db, l.target), l.uniqueness.columns);
    if !l.nullable {
      forall row | row in Rows(db, l.source) ensures Complete(Key(row, l.sourceColumns)) {
        forall i | 0 <= i < |l.sourceColumns| ensures Key(row, l.sourceColumns)[i] != Null {
          assert ColumnNotNull(source, l.sourceColumns[i]);
        }
      }
    }
    forall row | row in Rows(db, l.source) && Complete(Key(row, l.sourceColumns)) ensures Referenced(db, l, row) {
      assert ReferencesHold(db, l.source, fk);
      var t :| t in Rows(db, l.target) && Key(t, l.targetColumns) == Key(row, l.sourceColumns);
      assert Matches(l, row, t);
    }
  }

  /**
   From review to rows: a scope path validated against the boundary, whose recorded digest
   still matches a later inspection, isolates trusted values in every database that conforms
   to that later inspection.
   */
  lemma CurrentScopeIsolates(tables: Inspection, root: string, scope: ScopePath, resources: map<string, Resource>,
                             kind: ScopeKind, maximumHops: nat, digest: LinkDigest, db: Database, a: int, b: int)
    requires ScopeProven(root, scope, resources, kind, maximumHops)
    requires AllCurrent(scope.proof.links, tables, digest.links) && digest == scope.proof.digest
    requires WellKeyed(tables) && Conforms(tables, db)
    ensures ScopedRead(db, scope.proof.links, scope.column, a, Rows(db, root))
         == OwnedRows(db, scope.proof.links, scope.column, a, Rows(db, root))
    ensures a != b ==>
              multiset(ScopedRead(db, scope.proof.links, scope.column, a, Rows(db, root)))
              + multiset(ScopedRead(db, scope.proof.links, scope.column, b, Rows(db, root))) <= multiset(Rows(db, root))
  {
    var links := scope.proof.links;
    MatchingDigestDeclares(tables, links, digest);
    forall i | 0 <= i < |links| ensures LinkHolds(db, links[i]) {
      DeclaredLinkHolds(tables, db, links[i]);
    }
    ValidatedScopeIsolates(root, scope, resources, kind, maximumHops, db, a, b);
  }

  // ---- From the inspection to rows

  /** Every declared reference names its target by the target's own schema and table. */
  predicate NamesSplitOneWay(tables: Inspection) {
    forall id | id in tables :: forall k | 0 <= k < |tables[id].foreignKeys| ::
      var fk := tables[id].foreignKeys[k];
      QualifiedName(fk.referencedSchema, fk.referencedTable) in tables ==> ReferencesExactly(tables, fk)
  }

  /** A proven hop of a graph recorded from the inspection is what one of its foreign keys records. */
  lemma ProvenHopRecorded(g: ScopeGraph, tables: Inspection, at: string, l: Link) returns (k: nat)
    requires RecordedFrom(g, tables) && ProvenHop(g, at, l) && l.target in g
    ensures at in tables && k < |tables[at].foreignKeys| && RecordedBy(tables, at, tables[at].foreignKeys[k], l)
  {
    k :| k < |g[at].relationships| && Describes(g[at].relationships[k], at, l);
    assert g[at].relationships[k] == RelationshipEvidence(tables[at], tables[at].foreignKeys[k], tables);
  }

  /** The link of a foreign key whose columns are all NOT NULL and whose target declares them as a key. */
  ghost predicate NotNullReference(tables: Inspection, at: string, fk: ForeignKey, l: Link) {
    && at in tables && fk in tables[at].foreignKeys
    && fk.columns != [] && |fk.columns| == |fk.referencedColumns|
    && (forall c | c in fk.columns :: ColumnNotNull(tables[at], c))
    && l.target in tables && DeclaresKey(tables[l.target], fk.referencedColumns)
    && l == Link(
         fk.name, at, QualifiedName(fk.referencedSchema, fk.referencedTable), fk.columns, fk.referencedColumns,
         l.uniqueness, false, ManyToOne, 1)
    && Some(l.uniqueness) == TargetUniqueness(tables[l.target], fk.referencedColumns)
  }

  /** Over the graph of an inspection, a scope path may use exactly the non-null references to a declared key. */
  lemma HopsAreDeclared(g: ScopeGraph, tables: Inspection, at: string, l: Link)
    requires RecordedFrom(g, tables) && at in g && l.target in g
    ensures ProvenHop(g, at, l) <==> exists fk :: NotNullReference(tables, at, fk, l)
  {
    if ProvenHop(g, at, l) {
      var k: nat :| k < |g[at].relationships| && Describes(g[at].relationships[k], at, l);
      HopOfReference(g, tables, at, l, k);
    }
    if exists fk :: NotNullReference(tables, at, fk, l) {
      var fk :| NotNullReference(tables, at, fk, l);
      var k :| 0 <= k < |tables[at].foreignKeys| && tables[at].foreignKeys[k] == fk;
      HopOfReference(g, tables, at, l, k);
    }
  }

  lemma HopOfReference(g: ScopeGraph, tables: Inspection, at: string, l: Link, k: nat)
    requires RecordedFrom(g, tables) && at in g && l.target in g && k < |g[at].relationships|
    ensures k < |tables[at].foreignKeys|
    ensures Describes(g[at].relationships[k], at, l) <==> NotNullReference(tables, at, tables[at].foreignKeys[k], l)
  {
    var fk := tables[at].foreignKeys[k];
    assert g[at].relationships[k] == RelationshipEvidence(tables[at], fk, tables);
    assert KeyNotNull(tables[at], fk.columns) <==> forall c | c in fk.columns :: ColumnNotNull(tables[at], c) by {
      if KeyNotNull(tables[at], fk.columns) {
        forall c | c in fk.columns ensures ColumnNotNull(tables[at], c) {
          var j :| 0 <= j < |fk.columns| && fk.columns[j] == c;
        }
      }
    }
  }

  lemma RecordedLinkDeclared(tables: Inspection, source: string, fk: ForeignKey, l: Link)
    requires RecordedBy(tables, source, fk, l) && ReferencesExactly(tables, fk)
    ensures Declares(tables, l)
  {
    assert SameForeignKey(fk, l, tables[l.target]);
  }

  /** Every link of an offered path is current and declared. */
  lemma OfferedLinkStands(g: ScopeGraph, tables: Inspection, kind: ScopeKind, root: string, links: seq<Link>, i: nat)
    requires RecordedFrom(g, tables) && NamesSplitOneWay(tables)
    requires forall id | id in tables :: ConstraintNamesUnique(tables[id])
    requires SimpleScopePath(g, kind, root, links) && i < |links|
    ensures CurrentLink(links[i], tables) == Some(links[i]) && Declares(tables, links[i])
  {
    var at := SourceAt(root, links, i);
    assert ProvenHop(g, at, links[i]);
    var k := ProvenHopRecorded(g, tables, at, links[i]);
    RecordedLinkIsCurrent(tables, at, tables[at].foreignKeys[k], links[i]);
    RecordedLinkDeclared(tables, at, tables[at].foreignKeys[k], links[i]);
  }

  /**
   From the inspection to rows, with nothing assumed about the path: whatever the search offers
   on the graph of an inspection passes the validator, recomputes to its own digest, and
   isolates trusted values in every database that conforms to the inspection.
   */
  lemma OfferedPathsIsolate(g: ScopeGraph, tables: Inspection, kind: ScopeKind, root: string, c: ScopePath,
                            resources: map<string, Resource>, maximumHops: nat, db: Database, a: int, b: int)
    requires WellKeyed(tables) && RecordedFrom(g, tables) && NamesSplitOneWay(tables)
    requires forall id | id in tables :: ConstraintNamesUnique(tables[id])
    requires Offered(g, kind, root, c) && BoundaryAgrees(g, kind, resources)
    requires root in resources && |c.proof.links| <= maximumHops
    requires forall i | 0 <= i < |c.proof.links| :: c.proof.links[i].target in resources
    requires Conforms(tables, db)
    ensures ScopeProven(root, c, resources, kind, maximumHops)
    ensures AllCurrent(c.proof.links, tables, c.proof.links) && c.proof.digest == LinkDigest(c.proof.links)
    ensures ScopedRead(db, c.proof.links, c.column, a, Rows(db, root))
         == OwnedRows(db, c.proof.links, c.column, a, Rows(db, root))
    ensures a != b ==>
      multiset(ScopedRead(db, c.proof.links, c.column, a, Rows(db, root)))
      + multiset(ScopedRead(db, c.proof.links, c.column, b, Rows(db, root))) <= multiset(Rows(db, root))
  {
    var links :| OfferedBy(g, kind, root, links, c);
    InspectionRecordsUniqueness(g, tables);
    SearchPassesValidator(g, kind, root, links, c, resources, maximumHops);
    forall i | 0 <= i < |links| ensures CurrentLink(links[i], tables) == Some(links[i]) {
      OfferedLinkStands(g, tables, kind, root, links, i);
    }
    CurrentScopeIsolates(tables, root, c, resources, kind, maximumHops, LinkDigest(links), db, a, b);
  }
}
