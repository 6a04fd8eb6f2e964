/** The evidence graph built from an inspection: one resource per inspected table. */
module Evidence {
  import opened Catalog

  datatype Inference = Inference(selected: Option<string>, candidates: seq<string>)

  datatype EvidenceRelationship = EvidenceRelationship(
    name: string,
    columns: seq<string>,
    referenced: string,
    referencedColumns: seq<string>,
    nullable: bool,
    cardinalityProven: bool,
    targetUniqueness: Option<Uniqueness>)

  datatype ScopeNode = ScopeNode(
    tenantKey: Inference,
    principalKey: Inference,
    relationships: seq<EvidenceRelationship>)

  /** The part of the graph that scope inference reads, by resource id. */
  type ScopeGraph = map<string, ScopeNode>

  function ScopeColumn(node: ScopeNode, kind: ScopeKind): Option<string> {
    match kind
    case Tenant => node.tenantKey.selected
    case Principal => node.principalKey.selected
  }

  /** What the inspection records about one declared foreign key. */
  function RelationshipEvidence(t: Table, fk: ForeignKey, tables: Inspection): EvidenceRelationship {
    var referenced := QualifiedName(fk.referencedSchema, fk.referencedTable);
    var uniqueness :=
      if referenced in tables then TargetUniqueness(tables[referenced], fk.referencedColumns) else None;
    EvidenceRelationship(
      fk.name, fk.columns, referenced, fk.referencedColumns,
      !KeyNotNull(t, fk.columns), uniqueness.Some?, uniqueness)
  }

  /** The proof recorded for one hop out of `source`. */
  function LinkFor(source: string, r: EvidenceRelationship): Link
    requires r.targetUniqueness.Some?
  {
    Link(r.name, source, r.referenced, r.columns, r.referencedColumns,
         r.targetUniqueness.value, r.nullable, ManyToOne, 1)
  }

  /** A relationship that a mandatory scope path may use. */
  predicate Proven(r: EvidenceRelationship) {
    && r.cardinalityProven
    && !r.nullable
    && r.targetUniqueness.Some?
    && |r.columns| >= 1
    && |r.columns| == |r.referencedColumns|
  }

  /** Recorded uniqueness is always uniqueness over the referenced columns themselves. */
  ghost predicate UniquenessRecorded(g: ScopeGraph) {
    forall id, k {:trigger g[id].relationships[k]} | id in g && 0 <= k < |g[id].relationships| ::
      var u := g[id].relationships[k].targetUniqueness;
      u.Some? ==> u.value.columns == g[id].relationships[k].referencedColumns
  }

  /** Every relationship of the graph is the evidence of a foreign key of the table it belongs to. */
  ghost predicate RecordedFrom(g: ScopeGraph, tables: Inspection) {
    forall id | id in g ::
      && id in tables
      && |g[id].relationships| == |tables[id].foreignKeys|
      && forall k | 0 <= k < |g[id].relationships| ::
           g[id].relationships[k] == RelationshipEvidence(tables[id], tables[id].foreignKeys[k], tables)
  }

  lemma InspectionRecordsUniqueness(g: ScopeGraph, tables: Inspection)
    requires RecordedFrom(g, tables)
    ensures UniquenessRecorded(g)
  {
    forall id, k | id in g && 0 <= k < |g[id].relationships|
      ensures g[id].relationships[k].targetUniqueness.Some? ==>
                g[id].relationships[k].targetUniqueness.value.columns == g[id].relationships[k].referencedColumns
    {
      var r := RelationshipEvidence(tables[id], tables[id].foreignKeys[k], tables);
      assert g[id].relationships[k] == r;
    }
  }
}
