/**
 What recorded decisions do to a resource, said without the steps that apply them: which use each
 field is open to afterwards, which keys scope it, exactly when a decision is refused, and that
 nothing a decision does not mention changes.
 */
module DecisionMeaning {
  import opened Catalog
  import opened Evidence
  import opened Pack
  import opened Sequences
  import opened ScopeSearch
  import opened Narrowing
  import opened EvidenceReview

  // ---- Fields

  /** No operation may read the field. */
  predicate Unusable(f: Field) {
    !f.rawVisible && !f.aggregate && !f.distinct && !f.groupable && !f.timeBucket && f.sensitive
  }

  /** Read, counted, and open to whatever its type and name are good for. */
  predicate UsableAs(naming: Naming, name: string, f: Field, grouped: bool) {
    && f.rawVisible && f.distinct && !f.sensitive
    && (f.aggregate <==> naming.measure(name, f.dataType))
    && (f.timeBucket <==> naming.timestamp(f.dataType))
    && (f.groupable <==>
          grouped || (naming.category(f.dataType) && !f.primaryKey && !naming.referenceName(name)))
  }

  predicate SameUse(was: Field, now: Field, grouped: bool) {
    && now.rawVisible == was.rawVisible && now.aggregate == was.aggregate && now.distinct == was.distinct
    && now.timeBucket == was.timeBucket && now.sensitive == was.sensitive
    && (now.groupable <==> was.groupable || grouped)
  }

  /** What the inspection says of the field: its type, vocabulary, key membership and sensitivity. */
  predicate SameFacts(was: Field, now: Field) {
    && now.dataType == was.dataType && now.enumValues == was.enumValues
    && now.primaryKey == was.primaryKey && now.sensitivity == was.sensitivity
  }

  function Entry<V>(m: map<string, V>, f: string): Option<V> {
    if f in m then Some(m[f]) else None
  }

  function Else<V>(now: Option<V>, was: Option<V>): Option<V> {
    if now.Some? then now else was
  }

  /** The reviews a field carries: those of the decision, and otherwise those it carried before. */
  predicate CarriesReviews(was: Field, now: Field, f: string, d: Decision) {
    && now.exposure == Else(Entry(d.fields, f), was.exposure)
    && now.enumReview == Else(Entry(d.fieldEnums, f), was.enumReview)
    && now.metadataReview == Else(Entry(d.fieldMetadata, f), was.metadataReview)
    && now.groupingReview == Else(Entry(d.exactGrouping, f), was.groupingReview)
  }

  lemma GroupedIsVisible(naming: Naming, r: EvidenceResource, d: Decision, f: string)
    requires Fits(naming, r, d) && f in d.exactGrouping
    ensures f in r.fields && StructurallyReviewed(naming, r, d).fields[f].rawVisible
  {
    var s := StructurallyReviewed(naming, r, d);
    assert GroupingFits(naming, s)(f, s.fields[f], d.exactGrouping[f]);
  }

  /** One kind of decision, on one field. */
  function Step<V>(was: Field, m: map<string, V>, f: string, update: (string, Field, V) -> Field): Field {
    if f in m then update(f, was, m[f]) else was
  }

  lemma StepOf<V>(fields: map<string, Field>, m: map<string, V>, f: string, update: (string, Field, V) -> Field)
    requires f in fields
    ensures f in Updated(fields, m, update) && Updated(fields, m, update)[f] == Step(fields[f], m, f, update)
  {
  }

  lemma StructuralField(naming: Naming, r: EvidenceResource, d: Decision, f: string)
    requires f in r.fields
    ensures f in StructurallyReviewed(naming, r, d).fields
    ensures
      var described := Step(r.fields[f], d.fieldMetadata, f, SetMetadata());
      var enumerated := Step(described, d.fieldEnums, f, SetEnum());
      StructurallyReviewed(naming, r, d).fields[f] == Step(enumerated, d.fields, f, SetExposure(naming))
  {
    StepOf(r.fields, d.fieldMetadata, f, SetMetadata());
    var described := Updated(r.fields, d.fieldMetadata, SetMetadata());
    StepOf(described, d.fieldEnums, f, SetEnum());
    StepOf(Updated(described, d.fieldEnums, SetEnum()), d.fields, f, SetExposure(naming));
  }

  lemma DescribedField(was: Field, d: Decision, f: string)
    ensures
      var now := Step(Step(was, d.fieldMetadata, f, SetMetadata()), d.fieldEnums, f, SetEnum());
      now == was.(metadataReview := Else(Entry(d.fieldMetadata, f), was.metadataReview),
                  enumReview := Else(Entry(d.fieldEnums, f), was.enumReview))
  {
  }

  lemma ExposedField(naming: Naming, was: Field, d: Decision, f: string)
    ensures
      var now := Step(was, d.fields, f, SetExposure(naming));
      && SameFacts(was, now) && now.exposure == Else(Entry(d.fields, f), was.exposure)
      && now.enumReview == was.enumReview && now.metadataReview == was.metadataReview
      && now.groupingReview == was.groupingReview
      && if f !in d.fields then SameUse(was, now, false)
         else if d.fields[f] == KeepOut then Unusable(now)
         else UsableAs(naming, f, now, false)
  {
    if f in d.fields {
      var e := d.fields[f];
      assert Allowed(e) <==> e != KeepOut by {
        match e
        case KeepOut =>
        case Withhold =>
        case Allow =>
      }
    }
  }

  /** What the field is open to after the structural decisions and, where reviewed, its exact grouping. */
  predicate Opened(naming: Naming, was: Field, now: Field, f: string, exposure: Option<Exposure>, grouped: bool) {
    if exposure.None? then SameUse(was, now, grouped)
    else if exposure.value == KeepOut then Unusable(now)
    else UsableAs(naming, f, now, grouped)
  }

  lemma StructuralUse(naming: Naming, r: EvidenceResource, d: Decision, f: string)
    requires f in r.fields
    ensures f in StructurallyReviewed(naming, r, d).fields
    ensures
      var was, now := r.fields[f], StructurallyReviewed(naming, r, d).fields[f];
      && SameFacts(was, now) && CarriesReviews(was, now, f, d.(exactGrouping := map[]))
      && Opened(naming, was, now, f, Entry(d.fields, f), false)
  {
    var described := Step(Step(r.fields[f], d.fieldMetadata, f, SetMetadata()), d.fieldEnums, f, SetEnum());
    StructuralField(naming, r, d, f);
    DescribedField(r.fields[f], d, f);
    ExposedField(naming, described, d, f);
  }

  lemma GroupedField(naming: Naming, r: EvidenceResource, d: Decision, f: string)
    requires f in r.fields
    ensures f in StructurallyReviewed(naming, r, d).fields && f in ReviewedBy(naming, r, d).fields
    ensures
      var s, now := StructurallyReviewed(naming, r, d).fields[f], ReviewedBy(naming, r, d).fields[f];
      now == if f in d.exactGrouping then s.(groupingReview := Some(d.exactGrouping[f]), groupable := true) else s
  {
    StructuralField(naming, r, d, f);
    StepOf(StructurallyReviewed(naming, r, d).fields, d.exactGrouping, f, SetGrouping());
  }

  /**
   A field kept out is open to nothing; one allowed or withheld is open to what its type and name
   are good for; any other keeps the use it had, and is groupable besides if its exact grouping was
   reviewed. The facts of the field never change, and a review stays until it is replaced.
   */
  lemma FieldAfterReview(naming: Naming, r: EvidenceResource, d: Decision, f: string)
    requires Fits(naming, r, d) && f in r.fields
    ensures f in ReviewedBy(naming, r, d).fields
    ensures
      var was, now := r.fields[f], ReviewedBy(naming, r, d).fields[f];
      && SameFacts(was, now) && CarriesReviews(was, now, f, d)
      && Opened(naming, was, now, f, Entry(d.fields, f), f in d.exactGrouping)
  {
    StructuralUse(naming, r, d, f);
    GroupedField(naming, r, d, f);
    if f in d.exactGrouping {
      GroupedIsVisible(naming, r, d, f);
    }
  }

  // ---- Keys

  predicate SameCandidates(was: seq<string>, now: seq<string>, chosen: Option<string>) {
    forall c | c in was + now + (if chosen.Some? then [chosen.value] else []) ::
      c in now <==> c in was || chosen == Some(c)
  }

  /** The chosen key is selected and among the candidates; without a choice nothing changes. */
  predicate KeyChosen(was: Inference, now: Inference, chosen: Option<string>) {
    if chosen.None? then now == was
    else now.selected == chosen && SameCandidates(was.candidates, now.candidates, chosen)
  }

  /** A principal decided to be none is deselected; the candidates stay. */
  predicate PrincipalChosen(was: Inference, now: Inference, decided: Option<Option<string>>) {
    match decided
    case None => now == was
    case Some(None) => now.selected.None? && now.candidates == was.candidates
    case Some(Some(key)) => KeyChosen(was, now, Some(key))
  }

  /** The keys after review; everything a decision cannot reach is as before. */
  lemma KeysAfterReview(naming: Naming, r: EvidenceResource, d: Decision)
    ensures
      var now := ReviewedBy(naming, r, d);
      && KeyChosen(r.tenantKey, now.tenantKey, d.tenantKey)
      && PrincipalChosen(r.principalKey, now.principalKey, d.principalKey)
      && now.primaryKey.selected == Else(d.rowIdentity, r.primaryKey.selected)
      && now.primaryKey.candidates == r.primaryKey.candidates
      && now.metadata == Else(d.metadata, r.metadata)
      && now.minimumCohort == Else(d.minimumCohort, r.minimumCohort)
      && now.relationships == r.relationships && now.rowSecurityAbsent == r.rowSecurityAbsent
      && now.derivedTenant == r.derivedTenant && now.derivedPrincipal == r.derivedPrincipal
      && now.shared == r.shared && now.fields.Keys == r.fields.Keys
  {
  }

  // ---- When a decision is refused

  /** A reviewed vocabulary names each value once, and only values the field declares. */
  ghost predicate VocabularyFits(f: Field, values: seq<string>) {
    if f.enumValues == [] then values == []
    else NoDuplicates(values) && forall v | v in values :: v in f.enumValues
  }

  /** Keys that join to something: of the resource itself, of others, or of its scope. */
  ghost predicate ActsAsKey(r: EvidenceResource, name: string) {
    || r.primaryKey.selected == Some(name)
    || (exists x | x in r.relationships :: name in x.columns)
    || r.tenantKey.selected == Some(name) || name in r.tenantKey.candidates
    || r.principalKey.selected == Some(name) || name in r.principalKey.candidates
  }

  /** Values worth showing one by one: scalar, no key, not sensitive, and open to reading. */
  ghost predicate MayGroupExactly(naming: Naming, r: EvidenceResource, name: string, f: Field) {
    && naming.scalarGroup(f.dataType) && !naming.unsafe(f.dataType)
    && !f.primaryKey && !naming.referenceName(name) && !ActsAsKey(r, name)
    && f.rawVisible && !f.sensitive
    && (f.sensitivity == LowRisk
        || (f.sensitivity == Unresolved && (f.exposure == Some(Allow) || f.exposure == Some(Withhold))))
  }

  lemma EligibleMeans(naming: Naming, r: EvidenceResource, name: string, f: Field)
    ensures GroupingEligible(naming, r, name, f) <==> MayGroupExactly(naming, r, name, f)
  {
    if forall k | 0 <= k < |r.relationships| :: name !in r.relationships[k].columns {
      forall x | x in r.relationships ensures name !in x.columns {
        var k :| 0 <= k < |r.relationships| && r.relationships[k] == x;
      }
    }
    if forall x | x in r.relationships :: name !in x.columns {
      forall k | 0 <= k < |r.relationships| ensures name !in r.relationships[k].columns {
        assert r.relationships[k] in r.relationships;
      }
    }
  }

  /** What each part of a decision needs of the resource, groupings of the resource as reviewed so far. */
  ghost predicate DecisionFits(naming: Naming, r: EvidenceResource, d: Decision) {
    && (d.rowIdentity.Some? ==> d.rowIdentity.value in r.primaryKey.candidates)
    && (d.tenantKey.Some? ==> d.tenantKey.value in r.fields)
    && (d.principalKey.Some? && d.principalKey.value.Some? ==> d.principalKey.value.value in r.fields)
    && (forall f | f in d.fieldMetadata :: f in r.fields)
    && (forall f | f in d.fieldEnums :: f in r.fields && VocabularyFits(r.fields[f], d.fieldEnums[f]))
    && (forall f | f in d.fields ::
          f in r.fields && (d.fields[f] == KeepOut || !naming.unsafe(r.fields[f].dataType)))
    && (forall f | f in d.exactGrouping ::
          f in r.fields
          && MayGroupExactly(naming, StructurallyReviewed(naming, r, d), f,
                             StructurallyReviewed(naming, r, d).fields[f]))
  }

  lemma VocabularyMeans(f: Field, values: seq<string>)
    ensures EnumFits()("", f, values) <==> VocabularyFits(f, values)
  {
    if f.enumValues != [] && Subset(values, f.enumValues) {
      forall v | v in values ensures v in f.enumValues {
        var i :| 0 <= i < |values| && values[i] == v;
      }
    }
  }

  lemma ExposureMeans(naming: Naming, f: Field, e: Exposure)
    ensures ExposureFits(naming)("", f, e) <==> e == KeepOut || !naming.unsafe(f.dataType)
  {
    match e
    case KeepOut => assert !Allowed(e);
    case Withhold => assert Allowed(e);
    case Allow => assert Allowed(e);
  }

  lemma VocabulariesMean(fields: map<string, Field>, m: map<string, seq<string>>)
    ensures Checked(fields, m, EnumFits()) <==> forall f | f in m :: f in fields && VocabularyFits(fields[f], m[f])
  {
    forall f | f in m && f in fields ensures EnumFits()(f, fields[f], m[f]) <==> VocabularyFits(fields[f], m[f]) {
      VocabularyMeans(fields[f], m[f]);
      assert EnumFits()(f, fields[f], m[f]) == EnumFits()("", fields[f], m[f]);
    }
  }

  lemma ExposuresMean(naming: Naming, fields: map<string, Field>, m: map<string, Exposure>)
    ensures Checked(fields, m, ExposureFits(naming)) <==>
      forall f | f in m :: f in fields && (m[f] == KeepOut || !naming.unsafe(fields[f].dataType))
  {
    forall f | f in m && f in fields
      ensures ExposureFits(naming)(f, fields[f], m[f]) <==> m[f] == KeepOut || !naming.unsafe(fields[f].dataType)
    {
      ExposureMeans(naming, fields[f], m[f]);
      assert ExposureFits(naming)(f, fields[f], m[f]) == ExposureFits(naming)("", fields[f], m[f]);
    }
  }

  lemma GroupingsMean(naming: Naming, s: EvidenceResource, m: map<string, string>)
    ensures Checked(s.fields, m, GroupingFits(naming, s)) <==>
      forall f | f in m :: f in s.fields && MayGroupExactly(naming, s, f, s.fields[f])
  {
    forall f | f in m && f in s.fields
      ensures GroupingFits(naming, s)(f, s.fields[f], m[f]) <==> MayGroupExactly(naming, s, f, s.fields[f])
    {
      EligibleMeans(naming, s, f, s.fields[f]);
    }
  }

  lemma MetadataMean(fields: map<string, Field>, m: map<string, string>)
    ensures Checked(fields, m, AnyField()) <==> forall f | f in m :: f in fields
  {
  }

  /** A decision is applied exactly when each of its parts fits; otherwise it is refused. */
  lemma FitsMeans(naming: Naming, r: EvidenceResource, d: Decision)
    ensures Fits(naming, r, d) <==> DecisionFits(naming, r, d)
  {
    var s := StructurallyReviewed(naming, r, d);
    MetadataMean(r.fields, d.fieldMetadata);
    VocabulariesMean(r.fields, d.fieldEnums);
    ExposuresMean(naming, r.fields, d.fields);
    GroupingsMean(naming, s, d.exactGrouping);
    assert s.fields.Keys == r.fields.Keys;
  }

  // ---- Scope decisions

  /** Nothing ties the resource to tenants: no column, no path. */
  predicate FreeOfTenants(r: EvidenceResource) {
    && r.tenantKey.selected.None? && r.tenantKey.candidates == []
    && (r.derivedTenant.None? || r.derivedTenant.value.candidates == [])
  }

  /** Every tenant may see the same rows: nothing ties the table or a table it refers to, and no row policy. */
  ghost predicate MayBeShared(g: Graph, id: string)
    requires id in g
  {
    && FreeOfTenants(g[id]) && g[id].rowSecurityAbsent
    && forall x | x in g[id].relationships && x.referenced in g ::
         FreeOfTenants(g[x.referenced])
         && (g[x.referenced].derivedTenant.None? || g[x.referenced].derivedTenant.value.selected.None?)
  }

  lemma SharedMeans(g: Graph, id: string)
    requires id in g
    ensures SharedEligible(g, id) <==> MayBeShared(g, id)
  {
    if SharedEligible(g, id) {
      forall x | x in g[id].relationships && x.referenced in g ensures !TenantBound(g[x.referenced]) {
        var k :| 0 <= k < |g[id].relationships| && g[id].relationships[k] == x;
      }
    }
    if MayBeShared(g, id) {
      forall k | 0 <= k < |g[id].relationships| && g[id].relationships[k].referenced in g
        ensures !TenantBound(g[g[id].relationships[k].referenced])
      {
        assert g[id].relationships[k] in g[id].relationships;
      }
    }
  }

  /** At most one of a tenant key, a tenant path and sharing; not both a principal key and a principal path. */
  predicate DecidesOneMode(d: Decision) {
    && (d.tenantKey.Some? ==> d.tenantPath.None? && d.shared.None?)
    && (d.tenantPath.Some? ==> d.shared.None?)
    && !(Chosen(d.principalKey) && Chosen(d.principalPath))
  }

  predicate Chosen(o: Option<Option<string>>) {
    o.Some? && o.value.Some?
  }

  ghost predicate PathListed(scope: Option<DerivedScope>, pathId: string) {
    scope.Some? && exists c | c in scope.value.candidates :: c.pathId == pathId
  }

  lemma ListedMeans(scope: Option<DerivedScope>, pathId: string)
    ensures ListsPath(scope, pathId) <==> PathListed(scope, pathId)
  {
    if PathListed(scope, pathId) {
      var c :| c in scope.value.candidates && c.pathId == pathId;
      var i :| 0 <= i < |scope.value.candidates| && scope.value.candidates[i] == c;
    }
    if ListsPath(scope, pathId) {
      var i :| 0 <= i < |scope.value.candidates| && scope.value.candidates[i].pathId == pathId;
      assert scope.value.candidates[i] in scope.value.candidates;
    }
  }

  /** A scope decision is taken exactly when it names one mode, an offered path, or sharing where that is allowed. */
  lemma ScopesFitMeans(g: Graph, id: string, d: Decision, single: bool)
    requires id in g
    ensures ScopesFit(g, id, d, single) <==>
      && DecidesOneMode(d)
      && (d.tenantPath.Some? ==> PathListed(g[id].derivedTenant, d.tenantPath.value))
      && (Chosen(d.principalPath) ==> PathListed(g[id].derivedPrincipal, d.principalPath.value.value))
      && (d.shared.Some? ==> !single && MayBeShared(g, id))
  {
    SharedMeans(g, id);
    if d.tenantPath.Some? {
      ListedMeans(g[id].derivedTenant, d.tenantPath.value);
    }
    if Chosen(d.principalPath) {
      ListedMeans(g[id].derivedPrincipal, d.principalPath.value.value);
    }
  }

  predicate FirstWithId(cs: seq<ScopePath>, pathId: string, i: int) {
    0 <= i < |cs| && cs[i].pathId == pathId && forall j | 0 <= j < i :: cs[j].pathId != pathId
  }

  lemma {:induction false} FirstIsSelected(cs: seq<ScopePath>, pathId: string) returns (i: int)
    requires FirstPath(cs, pathId).Some?
    ensures FirstWithId(cs, pathId, i) && FirstPath(cs, pathId) == Some(cs[i])
  {
    if cs[0].pathId == pathId {
      i := 0;
    } else {
      var k := FirstIsSelected(cs[1..], pathId);
      i := k + 1;
      forall j | 0 <= j < i ensures cs[j].pathId != pathId {
        if j > 0 {
          assert cs[1..][j - 1] == cs[j];
        }
      }
    }
  }

  lemma SelectingSelects(was: Option<DerivedScope>, pathId: string)
    requires ListsPath(was, pathId)
    ensures PathSelected(was, Selecting(was, pathId), Some(pathId))
  {
    var i := FirstIsSelected(was.value.candidates, pathId);
  }

  /** The decided path is selected among unchanged candidates; without a decision the scope stays. */
  ghost predicate PathSelected(was: Option<DerivedScope>, now: Option<DerivedScope>, decided: Option<string>) {
    if decided.None? then now == was
    else
      && was.Some? && now.Some? && now.value.candidates == was.value.candidates
      && exists i :: FirstWithId(was.value.candidates, decided.value, i)
           && now.value.selected == Some(was.value.candidates[i])
  }

  /** What taking the scope decisions of one resource leaves: the decided paths, sharing, and nothing else. */
  lemma ScopesAfterDecisions(g: Graph, overrides: Overrides, single: bool, id: string)
    requires ScopesApplicable(g, overrides, single) && id in g
    ensures id in ScopesApplied(g, overrides, single)
    ensures
      var now := ScopesApplied(g, overrides, single)[id];
      var d := if id in overrides then Some(overrides[id]) else None;
      && now == g[id].(derivedTenant := now.derivedTenant, derivedPrincipal := now.derivedPrincipal,
                       shared := now.shared)
      && PathSelected(g[id].derivedTenant, now.derivedTenant, if d.Some? then d.value.tenantPath else None)
      && PathSelected(g[id].derivedPrincipal, now.derivedPrincipal,
                      if d.Some? && Chosen(d.value.principalPath) then d.value.principalPath.value else None)
      && (d.Some? && d.value.shared.Some? ==> now.shared == Some(SharedScope(true, true)))
      && (d.None? || d.value.shared.None? ==>
            if !single && g[id].tenantKey.selected.None?
              && (g[id].derivedTenant.None? || g[id].derivedTenant.value.selected.None?)
            then now.shared.Some? && !now.shared.value.selected && (now.shared.value.eligible <==> MayBeShared(g, id))
            else now.shared.None?)
  {
    SharedMeans(g, id);
    if id in overrides {
      var d := overrides[id];
      assert ScopesFit(g, id, d, single);
      if d.tenantPath.Some? {
        SelectingSelects(g[id].derivedTenant, d.tenantPath.value);
      }
      if Chosen(d.principalPath) {
        SelectingSelects(g[id].derivedPrincipal, d.principalPath.value.value);
      }
    }
  }
}
