/**
 What the pruner keeps, in terms of the changed schema and of the build that follows. Nothing is
 dropped that either still supports, and overrides that a build accepts come back whole exactly
 when the few things a build does not check stand as well.
 */
module PruneKeeps {
  import opened Catalog
  import opened Pack
  import opened Sequences
  import opened Narrowing
  import opened EvidenceReview
  import opened Prune

  /** The graph that a build from these overrides takes the scope decisions on. */
  function BuildGraph(ctx: Context, overrides: Overrides): Graph {
    Inferred(Applied(ctx.naming, ctx.built, overrides), ctx.collation)
  }

  // ---- Decisions about single fields

  /** A keep-out needs its column only; a field in use also needs a type that may be read. */
  predicate ExposureSupported(naming: Naming, t: Table, f: string, e: Exposure) {
    var c := FindColumn(t.columns, f);
    c.Some? && (e == KeepOut || !(c.value.largeOrBinary || naming.unsafe(c.value.dataType)))
  }

  lemma FieldsLeft(ctx: Context, overrides: Overrides, id: string)
    requires Built(ctx) && id in ctx.tables
    ensures Of(Pruned(ctx, overrides), id).fields
         == KeepEntries(Of(overrides, id).fields, ExposureCheck(ctx, ctx.tables[id]))
  {
    OfPruned(ctx, overrides, id);
  }

  lemma ExposureChecked(ctx: Context, t: Table, f: string, e: Exposure)
    ensures ExposureCheck(ctx, t)(f, e) <==> ExposureSupported(ctx.naming, t, f, e)
  {
    var check := ExposureCheck(ctx, t);
    assert HasColumn(t, f) <==> FindColumn(t.columns, f).Some?;
    if HasColumn(t, f) {
      var c := FindColumn(t.columns, f).value;
      assert check(f, e) <==> (Allowed(e) ==> !c.largeOrBinary && !ctx.naming.unsafe(c.dataType));
    }
  }

  /** Exposures survive exactly where the schema supports them; every keep-out on an existing column does. */
  lemma ExposuresKept(ctx: Context, overrides: Overrides, id: string, f: string, e: Exposure)
    requires Built(ctx) && id in ctx.tables
    ensures f in Of(Pruned(ctx, overrides), id).fields && Of(Pruned(ctx, overrides), id).fields[f] == e <==>
      && f in Of(overrides, id).fields && Of(overrides, id).fields[f] == e
      && ExposureSupported(ctx.naming, ctx.tables[id], f, e)
  {
    FieldsLeft(ctx, overrides, id);
    ExposureChecked(ctx, ctx.tables[id], f, e);
  }

  lemma MetadataKept(ctx: Context, overrides: Overrides, id: string, f: string, text: string)
    requires Built(ctx) && id in ctx.tables
    ensures f in Of(Pruned(ctx, overrides), id).fieldMetadata && Of(Pruned(ctx, overrides), id).fieldMetadata[f] == text
      <==>
        && f in Of(overrides, id).fieldMetadata && Of(overrides, id).fieldMetadata[f] == text
        && FindColumn(ctx.tables[id].columns, f).Some?
  {
    OfPruned(ctx, overrides, id);
  }

  /** A reviewed vocabulary keeps, in order, exactly the values its column still declares. */
  lemma VocabulariesKept(ctx: Context, overrides: Overrides, id: string, f: string)
    requires Built(ctx) && id in ctx.tables
    ensures f in Of(Pruned(ctx, overrides), id).fieldEnums <==>
      f in Of(overrides, id).fieldEnums && FindColumn(ctx.tables[id].columns, f).Some?
    ensures f in Of(Pruned(ctx, overrides), id).fieldEnums ==>
      Of(Pruned(ctx, overrides), id).fieldEnums[f]
        == Filter(Of(overrides, id).fieldEnums[f], v => v in FindColumn(ctx.tables[id].columns, f).value.enumValues)
  {
    OfPruned(ctx, overrides, id);
    if f in Of(Pruned(ctx, overrides), id).fieldEnums {
      SameFilter(Of(overrides, id).fieldEnums[f], DeclaredCheck(ctx.tables[id], f),
                 v => v in FindColumn(ctx.tables[id].columns, f).value.enumValues);
    }
  }

  // ---- Keys

  /** The column is declared to identify a row on its own. */
  ghost predicate IdentifiesRow(t: Table, f: string) {
    || t.primaryKey == [f]
    || (exists k | k in t.uniqueConstraints :: k.columns == [f])
    || (exists x | x in t.indexes :: x.unique && x.columns == [f])
  }

  lemma IdentifiersAreProven(t: Table, f: string)
    ensures f in ProvenIdentifiers(t) <==> IdentifiesRow(t, f)
  {
    assert |t.primaryKey| == 1 ==> t.primaryKey == [t.primaryKey[0]];
    forall k | k in t.uniqueConstraints && |k.columns| == 1 ensures k.columns == [k.columns[0]] {
    }
    forall x | x in t.indexes && |x.columns| == 1 ensures x.columns == [x.columns[0]] {
    }
    if IdentifiesRow(t, f) {
      if k :| k in t.uniqueConstraints && k.columns == [f] {
        assert k.columns[0] in ProvenIdentifiers(t);
      } else if x :| x in t.indexes && x.unique && x.columns == [f] {
        assert x.columns[0] in ProvenIdentifiers(t);
      } else {
        assert f in t.primaryKey;
      }
    }
  }

  predicate KeysAgree(a: Decision, b: Decision) {
    && a.metadata == b.metadata && a.minimumCohort == b.minimumCohort
    && a.rowIdentity == b.rowIdentity && a.tenantKey == b.tenantKey && a.principalKey == b.principalKey
  }

  lemma KeysLeft(ctx: Context, overrides: Overrides, id: string)
    requires Built(ctx) && id in ctx.tables
    ensures KeysAgree(Of(Pruned(ctx, overrides), id), RetainKeys(ctx.tables[id], Of(overrides, id)))
  {
    OfPruned(ctx, overrides, id);
  }

  /**
   What is left of the keys: a reviewed key goes exactly when its column is gone, a reviewed row
   identity exactly when it no longer identifies a row; metadata and cohort always stay.
   */
  ghost predicate KeysLeftOf(t: Table, d: Decision, left: Decision) {
    && left.metadata == d.metadata && left.minimumCohort == d.minimumCohort
    && left.rowIdentity
       == (if d.rowIdentity.Some? && !IdentifiesRow(t, d.rowIdentity.value) then None else d.rowIdentity)
    && left.tenantKey
       == (if d.tenantKey.Some? && FindColumn(t.columns, d.tenantKey.value).None? then None else d.tenantKey)
    && left.principalKey
       == (if d.principalKey.Some? && d.principalKey.value.Some?
             && FindColumn(t.columns, d.principalKey.value.value).None?
           then None else d.principalKey)
  }

  lemma KeysKept(ctx: Context, overrides: Overrides, id: string)
    requires Built(ctx) && id in ctx.tables
    ensures KeysLeftOf(ctx.tables[id], Of(overrides, id), Of(Pruned(ctx, overrides), id))
  {
    KeysLeft(ctx, overrides, id);
    var d := Of(overrides, id);
    if d.rowIdentity.Some? {
      IdentifiersAreProven(ctx.tables[id], d.rowIdentity.value);
    }
  }

  // ---- Definitions

  /** The first foreign key of the child with this name into the counting resource. */
  predicate FirstReference(child: Table, name: string, id: string, k: nat) {
    && k < |child.foreignKeys|
    && ReferenceTo(child.foreignKeys[k], name, id)
    && forall i | 0 <= i < k :: !ReferenceTo(child.foreignKeys[i], name, id)
  }

  predicate ReferenceTo(fk: ForeignKey, name: string, id: string) {
    fk.name == name && QualifiedName(fk.referencedSchema, fk.referencedTable) == id
  }

  /** The reference joins each child row to exactly one row of the counting resource. */
  ghost predicate CountSupported(tables: Inspection, id: string, child: string, name: string)
    requires id in tables
  {
    && child in tables
    && exists k: nat :: FirstReference(tables[child], name, id, k)
         && tables[child].foreignKeys[k].columns != []
         && (forall c | c in tables[child].foreignKeys[k].columns :: ColumnNotNull(tables[child], c))
         && DeclaresKey(tables[id], tables[child].foreignKeys[k].referencedColumns)
  }

  /** Operands of the resource itself still have their column; a count names a supported reference. */
  ghost predicate MeasureSupported(tables: Inspection, id: string, d: DerivedMeasure)
    requires id in tables
  {
    match d
    case ChildCount(_, _, _, child, name) => CountSupported(tables, id, child, name)
    case PostAggregate(_, _, _, base, _, _) => OperandSupported(tables[id], base)
    case Ratio(_, _, _, numerator, denominator, _) =>
      OperandSupported(tables[id], numerator) && OperandSupported(tables[id], denominator)
  }

  predicate OperandSupported(t: Table, m: BaseMeasure) {
    m.relationship.Some? || m.field.None? || FindColumn(t.columns, m.field.value).Some?
  }

  lemma {:induction false} FirstReferenceFound(fks: seq<ForeignKey>, name: string, id: string, k: nat)
    requires k < |fks| && ReferenceTo(fks[k], name, id) && forall i | 0 <= i < k :: !ReferenceTo(fks[i], name, id)
    ensures FindForeignKey(fks, name, id) == Some(fks[k])
  {
    if k > 0 {
      assert !ReferenceTo(fks[0], name, id);
      FirstReferenceFound(fks[1..], name, id, k - 1);
    }
  }

  lemma {:induction false} FoundReferenceFirst(fks: seq<ForeignKey>, name: string, id: string) returns (k: nat)
    requires FindForeignKey(fks, name, id).Some?
    ensures k < |fks| && FindForeignKey(fks, name, id) == Some(fks[k])
    ensures ReferenceTo(fks[k], name, id) && forall i | 0 <= i < k :: !ReferenceTo(fks[i], name, id)
  {
    if ReferenceTo(fks[0], name, id) {
      k := 0;
    } else {
      var rest := FoundReferenceFirst(fks[1..], name, id);
      k := rest + 1;
      assert fks[k] == fks[1..][rest];
      forall i | 0 <= i < k ensures !ReferenceTo(fks[i], name, id) {
        if i > 0 {
          assert fks[i] == fks[1..][i - 1];
        }
      }
    }
  }

  lemma NotNullColumns(t: Table, columns: seq<string>)
    ensures KeyNotNull(t, columns) <==> forall c | c in columns :: ColumnNotNull(t, c)
  {
    if KeyNotNull(t, columns) {
      forall c | c in columns ensures ColumnNotNull(t, c) {
        var i :| 0 <= i < |columns| && columns[i] == c;
      }
    }
  }

  lemma StandingCount(ctx: Context, id: string, d: DerivedMeasure)
    requires id in ctx.tables && d.ChildCount?
    ensures MeasureStands(ctx, id, d) <==> CountSupported(ctx.tables, id, d.childResource, d.relationship)
  {
    if d.childResource in ctx.tables {
      var child := ctx.tables[d.childResource];
      if FindForeignKey(child.foreignKeys, d.relationship, id).Some? {
        var k := FoundReferenceFirst(child.foreignKeys, d.relationship, id);
        assert FirstReference(child, d.relationship, id, k);
        NotNullColumns(child, child.foreignKeys[k].columns);
      }
      if CountSupported(ctx.tables, id, d.childResource, d.relationship) {
        var k: nat :| FirstReference(child, d.relationship, id, k)
          && child.foreignKeys[k].columns != []
          && (forall c | c in child.foreignKeys[k].columns :: ColumnNotNull(child, c))
          && DeclaresKey(ctx.tables[id], child.foreignKeys[k].referencedColumns);
        FirstReferenceFound(child.foreignKeys, d.relationship, id, k);
        NotNullColumns(child, child.foreignKeys[k].columns);
      }
    }
  }

  lemma StandingIsSupported(ctx: Context, id: string, d: DerivedMeasure)
    requires id in ctx.tables
    ensures MeasureStands(ctx, id, d) <==> MeasureSupported(ctx.tables, id, d)
  {
    if d.ChildCount? {
      StandingCount(ctx, id, d);
    }
  }

  predicate BandSupported(t: Table, d: NumericBand) {
    d.relationship.Some? || FindColumn(t.columns, d.field).Some?
  }

  predicate AutoBandSupported(ctx: Context, t: Table, field: string) {
    ctx.autoBandsSupported && FindColumn(t.columns, field).Some?
  }

  /** Derived measures and bands survive exactly where the schema supports them. */
  lemma DefinitionsKept(ctx: Context, overrides: Overrides, id: string, name: string)
    requires Built(ctx) && id in ctx.tables
    ensures
      var d, left, t := Of(overrides, id), Of(Pruned(ctx, overrides), id), ctx.tables[id];
      && (name in left.derivedMeasures <==>
            name in d.derivedMeasures && MeasureSupported(ctx.tables, id, d.derivedMeasures[name]))
      && (name in left.numericBands <==> name in d.numericBands && BandSupported(t, d.numericBands[name]))
      && (name in left.autoBands <==> name in d.autoBands && AutoBandSupported(ctx, t, name))
      && (name in left.derivedMeasures ==> left.derivedMeasures[name] == d.derivedMeasures[name])
      && (name in left.numericBands ==> left.numericBands[name] == d.numericBands[name])
      && (name in left.autoBands ==> left.autoBands[name] == d.autoBands[name])
  {
    OfPruned(ctx, overrides, id);
    var d := Of(overrides, id);
    if name in d.derivedMeasures {
      StandingIsSupported(ctx, id, d.derivedMeasures[name]);
    }
  }

  // ---- Scope decisions and groupings, judged by the build that follows

  lemma SurveyIsBuild(ctx: Context, overrides: Overrides, id: string)
    requires Built(ctx) && id in ctx.built
    ensures
      var g, b := Surveyed(ctx, Preliminary(ctx, overrides)), BuildGraph(ctx, Pruned(ctx, overrides));
      id in g && id in b && SameButGroupings(g[id], b[id]) && SharedEligible(g, id) == SharedEligible(b, id)
  {
    var p := Pruned(ctx, overrides);
    PruningKeepsSurvey(ctx, overrides);
    var a, b := Applied(ctx.naming, ctx.built, Structural(p)), Applied(ctx.naming, ctx.built, p);
    forall i | i in a ensures SameButGroupings(a[i], b[i]) {
      AppliedSameButGroupings(ctx, p, i);
    }
    GroupingsDoNotMoveScopes(a, b, ctx.collation);
  }

  /** A path survives exactly if the build lists it, a shared reference if the build finds it eligible. */
  lemma ScopesKept(ctx: Context, overrides: Overrides, id: string)
    requires Built(ctx) && id in ctx.tables
    ensures id in BuildGraph(ctx, Pruned(ctx, overrides))
    ensures
      var d, left, b := Of(overrides, id), Of(Pruned(ctx, overrides), id), BuildGraph(ctx, Pruned(ctx, overrides));
      && left.tenantPath
         == (if d.tenantPath.Some? && ListsPath(b[id].derivedTenant, d.tenantPath.value) then d.tenantPath else None)
      && left.principalPath
         == (if d.principalPath.Some? && d.principalPath.value.Some?
               && !ListsPath(b[id].derivedPrincipal, d.principalPath.value.value)
             then None else d.principalPath)
      && left.shared == (if d.shared.Some? && SharedEligible(b, id) then d.shared else None)
  {
    OfPruned(ctx, overrides, id);
    SurveyIsBuild(ctx, overrides, id);
  }

  /** The column is there and has the type it had when its grouping was reviewed, if that was recorded. */
  predicate TypeStands(ctx: Context, id: string, f: string)
    requires id in ctx.tables
  {
    var c := FindColumn(ctx.tables[id].columns, f);
    && c.Some?
    && (id in ctx.previousTypes && f in ctx.previousTypes[id] ==> ctx.previousTypes[id][f] == c.value.dataType)
  }

  lemma RetainedGroupings(ctx: Context, id: string, d: Decision)
    requires id in ctx.tables
    ensures Retained(ctx, id, d).exactGrouping == KeepEntries(d.exactGrouping, GroupingCheck(ctx, id))
  {
  }

  lemma ReconciledGroupings(ctx: Context, g: Graph, id: string, d: Decision)
    requires id in g
    ensures Reconciled(ctx, g, id, d).exactGrouping == KeepEntries(d.exactGrouping, EligibleCheck(ctx, g[id]))
  {
  }

  /** A grouping is left when it passes the check of the schema and the check of the surveyed resource. */
  lemma GroupingLeft(ctx: Context, overrides: Overrides, id: string, f: string)
    requires Built(ctx) && id in overrides && id in ctx.tables
    ensures
      var g, d, left := Surveyed(ctx, Preliminary(ctx, overrides)), overrides[id], Left(ctx, overrides, id);
      && id in g
      && (f in left.exactGrouping <==>
            && f in d.exactGrouping && GroupingCheck(ctx, id)(f, d.exactGrouping[f])
            && EligibleCheck(ctx, g[id])(f, d.exactGrouping[f]))
      && (f in left.exactGrouping ==> left.exactGrouping[f] == d.exactGrouping[f])
  {
    RetainedGroupings(ctx, id, overrides[id]);
    ReconciledGroupings(
      ctx, Surveyed(ctx, Preliminary(ctx, overrides)), id, Retained(ctx, id, overrides[id]));
  }

  lemma GroupingChecked(ctx: Context, id: string, f: string, text: string)
    requires id in ctx.tables
    ensures GroupingCheck(ctx, id)(f, text) <==> TypeStands(ctx, id, f)
  {
  }

  /** The surveyed resource is the one the build groups on, apart from its scope paths. */
  lemma SurveyedAsBuilt(ctx: Context, overrides: Overrides, id: string)
    requires Built(ctx) && id in overrides && id in ctx.tables
    ensures
      var g, s := Surveyed(ctx, Preliminary(ctx, overrides)),
        StructurallyReviewed(ctx.naming, ctx.built[id], Left(ctx, overrides, id));
      id in g && g[id] == s.(derivedTenant := g[id].derivedTenant, derivedPrincipal := g[id].derivedPrincipal)
  {
    SurveyedResource(ctx, Preliminary(ctx, overrides), id);
    LeftView(ctx, overrides, id);
    NothingIsNoReview(ctx.naming, ctx.built[id]);
  }

  lemma EligibleApartFromScopes(ctx: Context, r: EvidenceResource, s: EvidenceResource, f: string, text: string)
    requires r == s.(derivedTenant := r.derivedTenant, derivedPrincipal := r.derivedPrincipal)
    ensures EligibleCheck(ctx, r)(f, text) <==> f in s.fields && GroupingEligible(ctx.naming, s, f, s.fields[f])
  {
  }

  /** A grouping survives exactly if its type stands and the build finds the field eligible. */
  lemma GroupingsKept(ctx: Context, overrides: Overrides, id: string, f: string)
    requires Built(ctx) && id in ctx.tables
    ensures
      var d, left := Of(overrides, id), Of(Pruned(ctx, overrides), id);
      var s := StructurallyReviewed(ctx.naming, ctx.built[id], left);
      && (f in left.exactGrouping <==>
            && f in d.exactGrouping && TypeStands(ctx, id, f)
            && f in s.fields && GroupingEligible(ctx.naming, s, f, s.fields[f]))
      && (f in left.exactGrouping ==> left.exactGrouping[f] == d.exactGrouping[f])
  {
    OfPruned(ctx, overrides, id);
    if id in overrides && f in overrides[id].exactGrouping {
      var g := Surveyed(ctx, Preliminary(ctx, overrides));
      var s := StructurallyReviewed(ctx.naming, ctx.built[id], Left(ctx, overrides, id));
      GroupingLeft(ctx, overrides, id, f);
      GroupingChecked(ctx, id, f, overrides[id].exactGrouping[f]);
      SurveyedAsBuilt(ctx, overrides, id);
      EligibleApartFromScopes(ctx, g[id], s, f, overrides[id].exactGrouping[f]);
    } else if id in overrides {
      GroupingLeft(ctx, overrides, id, f);
    }
  }

  // ---- What a build accepts comes back whole

  /** A build from these overrides would throw nowhere. */
  ghost predicate BuildAccepts(ctx: Context, overrides: Overrides) {
    Applicable(ctx.naming, ctx.built, overrides)
    && ScopesApplicable(BuildGraph(ctx, overrides), overrides, false)
  }

  /** What a build does not check: definitions, recorded types, and large or binary columns in use. */
  ghost predicate UncheckedStands(ctx: Context, id: string, d: Decision)
    requires id in ctx.tables
  {
    && (forall name | name in d.derivedMeasures :: MeasureSupported(ctx.tables, id, d.derivedMeasures[name]))
    && (forall name | name in d.numericBands :: BandSupported(ctx.tables[id], d.numericBands[name]))
    && (forall name | name in d.autoBands :: AutoBandSupported(ctx, ctx.tables[id], name))
    && (forall f | f in d.exactGrouping :: TypeStands(ctx, id, f))
    && (forall f | f in d.fields && d.fields[f] != KeepOut :: !LargeColumn(ctx.tables[id], f))
  }

  predicate LargeColumn(t: Table, f: string) {
    var c := FindColumn(t.columns, f);
    c.Some? && c.value.largeOrBinary
  }

  // Each kind of decision survives whole

  lemma EntriesWhole<V>(m: map<string, V>, keep: (string, V) -> bool)
    ensures KeepEntries(m, keep) == m <==> forall k | k in m :: keep(k, m[k])
  {
    if KeepEntries(m, keep) == m {
      forall k | k in m ensures keep(k, m[k]) {
        assert k in KeepEntries(m, keep);
      }
    }
  }

  ghost predicate FitsUnchecked(ctx: Context, id: string, d: Decision)
    requires id in ctx.tables && id in ctx.built
  {
    Fits(ctx.naming, ctx.built[id], d) && UncheckedStands(ctx, id, d)
  }

  lemma KeysWhole(ctx: Context, id: string, d: Decision)
    requires Built(ctx) && id in ctx.tables && FitsUnchecked(ctx, id, d)
    ensures RetainKeys(ctx.tables[id], d) == d
  {
    assert ResourceBuilt(ctx.tables[id], ctx.built[id]);
  }

  lemma MeasuresWhole(ctx: Context, id: string, d: Decision)
    requires id in ctx.tables && UncheckedStands(ctx, id, d)
    ensures KeepEntries(d.derivedMeasures, MeasureCheck(ctx, id)) == d.derivedMeasures
  {
    forall name | name in d.derivedMeasures ensures MeasureCheck(ctx, id)(name, d.derivedMeasures[name]) {
      StandingIsSupported(ctx, id, d.derivedMeasures[name]);
    }
    EntriesWhole(d.derivedMeasures, MeasureCheck(ctx, id));
  }

  lemma DefinitionsWhole(ctx: Context, id: string, d: Decision)
    requires id in ctx.tables && UncheckedStands(ctx, id, d)
    ensures RetainDefinitions(ctx, id, d) == d
  {
    MeasuresWhole(ctx, id, d);
    EntriesWhole(d.numericBands, BandCheck(ctx.tables[id]));
    EntriesWhole(d.autoBands, AutoBandCheck(ctx, ctx.tables[id]));
    forall f | f in d.exactGrouping ensures GroupingCheck(ctx, id)(f, d.exactGrouping[f]) {
      GroupingChecked(ctx, id, f, d.exactGrouping[f]);
    }
    EntriesWhole(d.exactGrouping, GroupingCheck(ctx, id));
  }

  lemma ExposureWhole(ctx: Context, t: Table, r: EvidenceResource, f: string, e: Exposure)
    requires ResourceBuilt(t, r) && f in r.fields && ExposureFits(ctx.naming)(f, r.fields[f], e)
    requires e == KeepOut || !LargeColumn(t, f)
    ensures ExposureCheck(ctx, t)(f, e)
  {
    ExposureChecked(ctx, t, f, e);
  }

  lemma ExposuresWhole(ctx: Context, id: string, d: Decision)
    requires Built(ctx) && id in ctx.tables && FitsUnchecked(ctx, id, d)
    ensures KeepEntries(d.fields, ExposureCheck(ctx, ctx.tables[id])) == d.fields
  {
    forall f | f in d.fields ensures ExposureCheck(ctx, ctx.tables[id])(f, d.fields[f]) {
      ExposureWhole(ctx, ctx.tables[id], ctx.built[id], f, d.fields[f]);
    }
    EntriesWhole(d.fields, ExposureCheck(ctx, ctx.tables[id]));
  }

  lemma VocabularyWhole(t: Table, r: EvidenceResource, f: string, values: seq<string>)
    requires ResourceBuilt(t, r) && f in r.fields && EnumFits()(f, r.fields[f], values)
    ensures HasColumn(t, f) && Filter(values, DeclaredCheck(t, f)) == values
  {
    FilterAll(values, DeclaredCheck(t, f));
  }

  lemma EachVocabularyWhole(t: Table, m: map<string, seq<string>>)
    requires forall f | f in m :: HasColumn(t, f) && Filter(m[f], DeclaredCheck(t, f)) == m[f]
    ensures RetainEnums(t, m) == m
  {
  }

  lemma VocabulariesWhole(ctx: Context, id: string, d: Decision)
    requires Built(ctx) && id in ctx.tables && FitsUnchecked(ctx, id, d)
    ensures RetainEnums(ctx.tables[id], d.fieldEnums) == d.fieldEnums
  {
    var t := ctx.tables[id];
    forall f | f in d.fieldEnums
      ensures HasColumn(t, f) && Filter(d.fieldEnums[f], DeclaredCheck(t, f)) == d.fieldEnums[f]
    {
      VocabularyWhole(t, ctx.built[id], f, d.fieldEnums[f]);
    }
    EachVocabularyWhole(t, d.fieldEnums);
  }

  lemma FieldsWhole(ctx: Context, id: string, d: Decision)
    requires Built(ctx) && id in ctx.tables && FitsUnchecked(ctx, id, d)
    ensures RetainFields(ctx, ctx.tables[id], d) == d
  {
    var t, r := ctx.tables[id], ctx.built[id];
    assert ResourceBuilt(t, r);
    forall f | f in d.fieldMetadata ensures MetadataCheck(t)(f, d.fieldMetadata[f]) {
      assert f in r.fields;
    }
    EntriesWhole(d.fieldMetadata, MetadataCheck(t));
    VocabulariesWhole(ctx, id, d);
    ExposuresWhole(ctx, id, d);
  }

  lemma RetainedAsGiven(ctx: Context, id: string, d: Decision)
    requires Built(ctx) && id in ctx.tables && FitsUnchecked(ctx, id, d)
    ensures Retained(ctx, id, d) == d
  {
    KeysWhole(ctx, id, d);
    DefinitionsWhole(ctx, id, d);
    FieldsWhole(ctx, id, d);
  }

  ghost predicate AllUncheckedStand(ctx: Context, overrides: Overrides) {
    forall id | id in overrides :: id in ctx.tables && UncheckedStands(ctx, id, overrides[id])
  }

  /** No resource is recorded with nothing decided about it. */
  ghost predicate NoneEmpty(overrides: Overrides) {
    forall id | id in overrides :: overrides[id] != NOTHING
  }

  lemma PreliminaryAsGiven(ctx: Context, overrides: Overrides)
    requires Built(ctx) && NoneEmpty(overrides)
    requires Applicable(ctx.naming, ctx.built, overrides) && AllUncheckedStand(ctx, overrides)
    ensures Preliminary(ctx, overrides) == overrides
  {
    forall id | id in overrides ensures id in ctx.tables && Retained(ctx, id, overrides[id]) == overrides[id] {
      RetainedAsGiven(ctx, id, overrides[id]);
    }
    OwnPreliminary(ctx, overrides);
  }

  /** The survey of accepted overrides lists what the build lists. */
  lemma SurveyOfAccepted(ctx: Context, overrides: Overrides, id: string)
    requires Built(ctx) && id in ctx.built
    ensures
      var g, b := Surveyed(ctx, overrides), BuildGraph(ctx, overrides);
      id in g && id in b && SameButGroupings(g[id], b[id]) && SharedEligible(g, id) == SharedEligible(b, id)
  {
    var a, b := Applied(ctx.naming, ctx.built, Structural(overrides)), Applied(ctx.naming, ctx.built, overrides);
    forall i | i in a ensures SameButGroupings(a[i], b[i]) {
      AppliedSameButGroupings(ctx, overrides, i);
    }
    GroupingsDoNotMoveScopes(a, b, ctx.collation);
  }

  lemma GroupingsWhole(ctx: Context, overrides: Overrides, id: string)
    requires Built(ctx) && id in overrides && id in ctx.built && Fits(ctx.naming, ctx.built[id], overrides[id])
    ensures
      var g := Surveyed(ctx, overrides);
      id in g && KeepEntries(overrides[id].exactGrouping, EligibleCheck(ctx, g[id])) == overrides[id].exactGrouping
  {
    var d, g := overrides[id], Surveyed(ctx, overrides);
    var s := StructurallyReviewed(ctx.naming, ctx.built[id], d);
    SurveyedResource(ctx, overrides, id);
    forall f | f in d.exactGrouping ensures EligibleCheck(ctx, g[id])(f, d.exactGrouping[f]) {
      assert f in s.fields && GroupingFits(ctx.naming, s)(f, s.fields[f], d.exactGrouping[f]);
      EligibleApartFromScopes(ctx, g[id], s, f, d.exactGrouping[f]);
    }
    EntriesWhole(d.exactGrouping, EligibleCheck(ctx, g[id]));
  }

  lemma ReconciledAsGiven(ctx: Context, overrides: Overrides, id: string)
    requires Built(ctx) && id in overrides && id in ctx.built && BuildAccepts(ctx, overrides)
    ensures id in Surveyed(ctx, overrides)
    ensures Reconciled(ctx, Surveyed(ctx, overrides), id, overrides[id]) == overrides[id]
  {
    SurveyOfAccepted(ctx, overrides, id);
    GroupingsWhole(ctx, overrides, id);
    assert ScopesFit(BuildGraph(ctx, overrides), id, overrides[id], false);
  }

  lemma StandingComesBackWhole(ctx: Context, overrides: Overrides)
    requires Built(ctx) && NoneEmpty(overrides) && BuildAccepts(ctx, overrides) && AllUncheckedStand(ctx, overrides)
    ensures Pruned(ctx, overrides) == overrides && NothingLost(ctx, overrides)
  {
    PreliminaryAsGiven(ctx, overrides);
    forall id | id in overrides
      ensures id in ctx.tables && Left(ctx, overrides, id) == overrides[id] && overrides[id] != NOTHING
    {
      RetainedAsGiven(ctx, id, overrides[id]);
      ReconciledAsGiven(ctx, overrides, id);
    }
    OwnPruned(ctx, overrides);
  }

  lemma WholeStands(ctx: Context, overrides: Overrides, id: string)
    requires Built(ctx) && Pruned(ctx, overrides) == overrides && id in overrides
    ensures id in ctx.tables && UncheckedStands(ctx, id, overrides[id])
  {
    var d := overrides[id];
    forall name
      ensures name in d.derivedMeasures ==> MeasureSupported(ctx.tables, id, d.derivedMeasures[name])
      ensures name in d.numericBands ==> BandSupported(ctx.tables[id], d.numericBands[name])
      ensures name in d.autoBands ==> AutoBandSupported(ctx, ctx.tables[id], name)
    {
      DefinitionsKept(ctx, overrides, id, name);
    }
    forall f | f in d.exactGrouping ensures TypeStands(ctx, id, f) {
      GroupingsKept(ctx, overrides, id, f);
    }
    forall f | f in d.fields && d.fields[f] != KeepOut ensures !LargeColumn(ctx.tables[id], f) {
      ExposuresKept(ctx, overrides, id, f, d.fields[f]);
    }
  }

  /**
   Overrides that a build accepts come back from the pruner whole, with nothing removed, if and
   only if what a build does not check stands: definitions, recorded types, and no large or
   binary column in use.
   */
  lemma AcceptedComesBackWhole(ctx: Context, overrides: Overrides)
    requires Built(ctx) && NoneEmpty(overrides) && BuildAccepts(ctx, overrides)
    ensures Pruned(ctx, overrides) == overrides <==> AllUncheckedStand(ctx, overrides)
    ensures Pruned(ctx, overrides) == overrides ==> NothingLost(ctx, overrides)
  {
    if AllUncheckedStand(ctx, overrides) {
      StandingComesBackWhole(ctx, overrides);
    }
    if Pruned(ctx, overrides) == overrides {
      forall id | id in overrides ensures id in ctx.tables && UncheckedStands(ctx, id, overrides[id]) {
        WholeStands(ctx, overrides, id);
      }
    }
  }
}
