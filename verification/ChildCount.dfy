/**
 Child-count measures: which child link a review accepts, and that counting children per
 parent over an accepted link neither loses a child row nor counts one twice.
 */
module ChildCount {
  import opened Catalog
  import opened Pack
  import opened Relational

  /** The single-hop proof of a direct relationship with this id. */
  predicate DirectProof(r: Relationship, id: string) {
    r.id == id && r.Depth() == 1 && r.proof.Some?
  }

  predicate ScopeProofFor(scope: Option<ScopePath>, id: string) {
    scope.Some? && scope.value.pathId == id && |scope.value.proof.links| == 1
  }

  /** Every proof the child resource records under this relationship id, relationships first. */
  function ChildProofs(child: Resource, id: string): seq<LinkProof> {
    RelationshipProofs(child.relationships, id)
    + (if ScopeProofFor(child.tenantScope, id) then [child.tenantScope.value.proof] else [])
    + (if ScopeProofFor(child.principalScope, id) then [child.principalScope.value.proof] else [])
  }

  function RelationshipProofs(rs: seq<Relationship>, id: string): seq<LinkProof> {
    if rs == [] then []
    else
      RelationshipProofs(rs[..|rs| - 1], id)
      + (if DirectProof(rs[|rs| - 1], id) then [rs[|rs| - 1].proof.value] else [])
  }

  lemma {:induction false} RelationshipProofsMembers(rs: seq<Relationship>, id: string)
    ensures forall r | r in rs && DirectProof(r, id) :: r.proof.value in RelationshipProofs(rs, id)
    ensures forall p | p in RelationshipProofs(rs, id) ::
      exists r | r in rs :: DirectProof(r, id) && r.proof.value == p
  {
    if rs != [] {
      var init, last := rs[..|rs| - 1], rs[|rs| - 1];
      assert rs == init + [last];
      RelationshipProofsMembers(init, id);
      forall p | p in RelationshipProofs(rs, id) ensures exists r | r in rs :: DirectProof(r, id) && r.proof.value == p
      {
        if p in RelationshipProofs(init, id) {
          var r :| r in init && DirectProof(r, id) && r.proof.value == p;
          assert r in rs;
        } else {
          assert last in rs;
        }
      }
    }
  }

  /** A direct relationship of this id, with or without a recorded depth, carries the proof. */
  predicate CarriedBy(x: Relationship, id: string, p: LinkProof) {
    x.id == id && x.proof == Some(p) && (x.pathDepth == None || x.pathDepth == Some(1))
  }

  /** A derived scope of one link under this path id carries the proof. */
  predicate ScopeCarries(scope: Option<ScopePath>, id: string, p: LinkProof) {
    scope.Some? && scope.value.pathId == id && |p.links| == 1 && scope.value.proof == p
  }

  /** The proofs of a child are those of its direct relationships and one-link scopes under that id. */
  lemma ChildProofsExactly(child: Resource, id: string, p: LinkProof)
    ensures p in ChildProofs(child, id) <==>
      || (exists x | x in child.relationships :: CarriedBy(x, id, p))
      || ScopeCarries(child.tenantScope, id, p) || ScopeCarries(child.principalScope, id, p)
  {
    RelationshipProofsMembers(child.relationships, id);
    if p in RelationshipProofs(child.relationships, id) {
      var x :| x in child.relationships && DirectProof(x, id) && x.proof.value == p;
      assert CarriedBy(x, id, p);
    }
    if exists x | x in child.relationships :: CarriedBy(x, id, p) {
      var x :| x in child.relationships && CarriedBy(x, id, p);
      assert DirectProof(x, id);
    }
  }

  predicate ChildLinkWellFormed(l: Link, id: string, child: string, root: string) {
    && l.constraintName == id
    && l.source == child
    && l.target == root
    && !l.nullable
    && l.cardinality == ManyToOne
    && l.maxFanOut == 1
    && |l.sourceColumns| >= 1
    && |l.sourceColumns| == |l.targetColumns|
    && l.uniqueness.columns == l.targetColumns
  }

  /** Every child row joins to at most one parent row, and none is left out for a missing key. */
  ghost predicate JoinsToOne(l: Link) {
    && l.nullable == false && l.cardinality.ManyToOne? && l.maxFanOut == 1
    && l.sourceColumns != [] && |l.targetColumns| == |l.sourceColumns|
    && l.targetColumns == l.uniqueness.columns
  }

  /** The proofs agree on their links; the last of them is the one that is checked. */
  ghost predicate OneAgreedLink(proofs: seq<LinkProof>, id: string, child: string, root: string, l: Link) {
    && proofs != []
    && (forall i | 0 <= i < |proofs| :: proofs[i].links == [l])
    && proofs[|proofs| - 1].source == "database_catalog"
    && proofs[|proofs| - 1].digest.links == [l]
    && l.constraintName == id && l.source == child && l.target == root
    && JoinsToOne(l)
  }

  /** One distinct proof under the key (id, links), stood for by the last proof of the list. */
  function AgreedLink(proofs: seq<LinkProof>, id: string, child: string, root: string): (l: Option<Link>)
    ensures l.Some? ==> OneAgreedLink(proofs, id, child, root, l.value)
    ensures l.None? ==> forall x :: !OneAgreedLink(proofs, id, child, root, x)
  {
    if proofs == [] || exists i | 0 <= i < |proofs| :: proofs[i].links != proofs[0].links then None
    else
      var proof := proofs[|proofs| - 1];
      if && proof.source == DATABASE_CATALOG
         && |proof.links| == 1
         && LinkDigest(proof.links) == proof.digest
         && ChildLinkWellFormed(proof.links[0], id, child, root)
      then
        assert proof.links == [proof.links[0]];
        Some(proof.links[0])
      else None
  }

  ghost predicate Accepts(rootId: string, childId: string, relationship: string, resources: seq<Resource>,
                          singleOrganization: bool, child: Resource, l: Link)
  {
    && FindResource(resources, rootId).Some?
    && FindResource(resources, childId) == Some(child)
    && childId != rootId
    && (singleOrganization || (child.sharedReference.None? && (child.tenantKey.Some? || child.tenantScope.Some?)))
    && OneAgreedLink(ChildProofs(child, relationship), relationship, childId, rootId, l)
  }

  /** Finds the one child link a child-count measure may use; None where the original throws. */
  method ResolveReviewedChildCountLink(rootId: string, childId: string, relationship: string, resources: seq<Resource>,
                                       singleOrganization: bool)
    returns (resolved: Option<(Resource, Link)>)
    ensures resolved.Some? ==>
      Accepts(rootId, childId, relationship, resources, singleOrganization, resolved.value.0, resolved.value.1)
    ensures resolved.None? ==>
      forall child, l :: !Accepts(rootId, childId, relationship, resources, singleOrganization, child, l)
  {
    var root := FindResource(resources, rootId);
    var found := FindResource(resources, childId);
    if root.None? || found.None? || found.value.id == root.value.id {
      return None;
    }
    var child := found.value;
    if !singleOrganization && (child.sharedReference.Some? || (child.tenantKey.None? && child.tenantScope.None?)) {
      return None;
    }
    var proofs: seq<LinkProof> := [];
    var k := 0;
    while k < |child.relationships|
      invariant k <= |child.relationships|
      invariant proofs == RelationshipProofs(child.relationships[..k], relationship)
    {
      assert child.relationships[..k + 1][..k] == child.relationships[..k];
      if DirectProof(child.relationships[k], relationship) {
        proofs := proofs + [child.relationships[k].proof.value];
      }
      k := k + 1;
    }
    assert child.relationships[..k] == child.relationships;
    if ScopeProofFor(child.tenantScope, relationship) {
      proofs := proofs + [child.tenantScope.value.proof];
    }
    if ScopeProofFor(child.principalScope, relationship) {
      proofs := proofs + [child.principalScope.value.proof];
    }
    assert proofs == ChildProofs(child, relationship);
    var link := AgreedLink(proofs, relationship, child.id, root.value.id);
    resolved := if link.Some? then Some((child, link.value)) else None;
  }

  // ---- Conservation

  /** How many of `children` the measure counts for one parent row. */
  function ChildrenOf(l: Link, parent: Row, children: seq<Row>): nat {
    if children == [] then 0
    else (if Matches(l, children[0], parent) then 1 else 0) + ChildrenOf(l, parent, children[1..])
  }

  function SumOverParents(l: Link, parents: seq<Row>, children: seq<Row>): nat {
    if parents == [] then 0
    else ChildrenOf(l, parents[0], children) + SumOverParents(l, parents[1..], children)
  }

  lemma {:induction false} NoParentsCountNothing(l: Link, parents: seq<Row>)
    ensures SumOverParents(l, parents, []) == 0
  {
    if parents != [] {
      NoParentsCountNothing(l, parents[1..]);
    }
  }

  /** Taking one child away lowers the grand total by the number of parents it joins. */
  lemma {:induction false} SumPeelsOneChild(l: Link, parents: seq<Row>, children: seq<Row>)
    requires children != []
    ensures SumOverParents(l, parents, children)
         == |Joined(l, children[0], parents)| + SumOverParents(l, parents, children[1..])
  {
    if parents != [] {
      SumPeelsOneChild(l, parents[1..], children);
    }
  }

  lemma {:induction false} EachChildCountedOnce(l: Link, parents: seq<Row>, children: seq<Row>)
    requires forall c | c in children :: |Joined(l, c, parents)| == 1
    ensures SumOverParents(l, parents, children) == |children|
  {
    if children == [] {
      NoParentsCountNothing(l, parents);
    } else {
      SumPeelsOneChild(l, parents, children);
      EachChildCountedOnce(l, parents, children[1..]);
    }
  }

  /** Over an accepted link, the per-parent counts add up to the child table. */
  lemma ChildCountsConserve(rootId: string, childId: string, relationship: string, resources: seq<Resource>,
                            singleOrganization: bool, child: Resource, l: Link, db: Database)
    requires Accepts(rootId, childId, relationship, resources, singleOrganization, child, l)
    requires LinkHolds(db, l)
    ensures SumOverParents(l, Rows(db, rootId), Rows(db, childId)) == |Rows(db, childId)|
    ensures forall c | c in Rows(db, childId) :: |Joined(l, c, Rows(db, rootId))| == 1
  {
    forall c | c in Rows(db, childId) ensures |Joined(l, c, Rows(db, rootId))| == 1 {
      JoinedExactlyOne(db, l, c);
    }
    EachChildCountedOnce(l, Rows(db, rootId), Rows(db, childId));
  }
}
