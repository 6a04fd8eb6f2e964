/**
 Definitions that depend on other authority: derived measures, numeric bands and automatic
 bands. Normalising a candidate trims its relationships to the analysis hop limit and drops
 every definition that no longer validates against what is left.
 */
module DependentAuthority {
  import opened Catalog
  import opened Pack
  import opened Boundary
  import opened Sequences
  import opened ChildCount

  // ---- When one definition validates

  const POST_AGGREGATE_SHAPES: set<string> := {
    "running_total", "rank", "lag_absolute_change", "lag_percentage_change", "moving_average", "share_of_released_total"
  }

  function FindRelationship(rs: seq<Relationship>, id: string): (found: Option<Relationship>)
    ensures found.Some? ==> found.value in rs && found.value.id == id
    ensures found.None? ==> forall r | r in rs :: r.id != id
  {
    if rs == [] then None
    else if rs[0].id == id then Some(rs[0])
    else FindRelationship(rs[1..], id)
  }

  /** The resource an operand reads: the root itself, or the target of the root's relationship. */
  function OperandTarget(root: Resource, relationship: Option<string>, resources: seq<Resource>): (t: Option<Resource>)
    ensures t.Some? ==> t.value in resources
  {
    if relationship.None? then FindResource(resources, root.id)
    else
      var r := FindRelationship(root.relationships, relationship.value);
      if r.None? then None else FindResource(resources, r.value.target)
  }

  /** An aggregate field without a function list allows sum and avg. */
  function FunctionsOf(target: Resource, field: string): seq<string> {
    if target.aggregateFunctions.Some? && field in target.aggregateFunctions.value
    then target.aggregateFunctions.value[field]
    else ["sum", "avg"]
  }

  ghost predicate BaseMeasureReviewed(root: Resource, m: BaseMeasure, resources: seq<Resource>) {
    if m.function_ == "count" then m.field.None? && m.relationship.None?
    else
      var target := OperandTarget(root, m.relationship, resources);
      && m.function_ in {"count_distinct", "sum", "avg"}
      && target.Some?
      && m.field.Some?
      && if m.function_ == "count_distinct" then m.field.value in target.value.countDistinct
         else m.field.value in target.value.aggregates && m.function_ in FunctionsOf(target.value, m.field.value)
  }

  /** A measure over operands of the resource and its relationships. */
  ghost predicate OperandsReviewed(root: Resource, d: DerivedMeasure, resources: seq<Resource>)
    requires !d.ChildCount?
  {
    match d
    case PostAggregate(_, _, shape, base, direction, windowSize) =>
      && (shape == "running_total" || shape == "rank" || shape == "lag_absolute_change"
          || shape == "lag_percentage_change" || shape == "moving_average" || shape == "share_of_released_total")
      && BaseMeasureReviewed(root, base, resources)
      && (shape == "rank" ==> direction == Some("asc") || direction == Some("desc"))
      && (shape == "moving_average" ==> windowSize.Some? && 2 <= windowSize.value <= 12)
    case Ratio(_, _, shape, numerator, denominator, nullPolicy) =>
      && nullPolicy == "null_on_zero_or_null_denominator"
      && numerator.relationship == denominator.relationship
      && BaseMeasureReviewed(root, numerator, resources)
      && BaseMeasureReviewed(root, denominator, resources)
      && (shape == "per_unit_average" ==>
            numerator.function_ == "sum" && denominator.function_ in {"count", "count_distinct"})
  }

  ghost predicate MeasureReviewed(rules: Rules, resources: seq<Resource>, single: bool, root: Resource,
                                  d: DerivedMeasure)
  {
    && rules.identifier(d.name)
    && rules.caption(d.caption)
    && if d.ChildCount? then
         exists child, l :: Accepts(root.id, d.childResource, d.relationship, resources, single, child, l)
       else OperandsReviewed(root, d, resources)
  }

  ghost predicate NumericBandReviewed(rules: Rules, resources: seq<Resource>, root: Resource, d: NumericBand) {
    var n := rules.numericBand(d);
    && n.Some?
    && var target := OperandTarget(root, n.value.relationship, resources);
       target.Some? && n.value.field in target.value.aggregates
  }

  ghost predicate AutoBandReviewed(rules: Rules, root: Resource, d: AutoBand) {
    var n := rules.autoBand(d);
    && n.Some?
    && n.value.field in root.aggregates
    && n.value.field !in root.modelWithheld.GetOr([])
    && n.value.field !in root.keptOut
  }

  /** The check of one operand: a count of the resource itself, or a function over a reviewed field. */
  method AssertDerivedBaseMeasure(root: Resource, m: BaseMeasure, resources: seq<Resource>) returns (ok: bool)
    ensures ok <==> BaseMeasureReviewed(root, m, resources)
  {
    if m.function_ == "count" {
      return m.field.None? && m.relationship.None?;
    }
    if m.function_ != "count_distinct" && m.function_ != "sum" && m.function_ != "avg" {
      return false;
    }
    var target := OperandTarget(root, m.relationship, resources);
    if target.None? || m.field.None? {
      return false;
    }
    var field := m.field.value;
    if m.function_ == "count_distinct" {
      return field in target.value.countDistinct;
    }
    if field !in target.value.aggregates {
      return false;
    }
    return m.function_ in FunctionsOf(target.value, field);
  }

  method AssertOperands(root: Resource, d: DerivedMeasure, resources: seq<Resource>) returns (ok: bool)
    requires !d.ChildCount?
    ensures ok <==> OperandsReviewed(root, d, resources)
  {
    match d
    case PostAggregate(_, _, shape, base, direction, windowSize) =>
      if shape !in POST_AGGREGATE_SHAPES {
        return false;
      }
      ok := AssertDerivedBaseMeasure(root, base, resources);
      if shape == "rank" && direction != Some("asc") && direction != Some("desc") {
        return false;
      }
      if shape == "moving_average" && (windowSize.None? || windowSize.value < 2 || windowSize.value > 12) {
        return false;
      }
    case Ratio(_, _, shape, numerator, denominator, nullPolicy) =>
      if nullPolicy != "null_on_zero_or_null_denominator" || numerator.relationship != denominator.relationship {
        return false;
      }
      var above := AssertDerivedBaseMeasure(root, numerator, resources);
      var below := AssertDerivedBaseMeasure(root, denominator, resources);
      if shape == "per_unit_average"
        && (numerator.function_ != "sum"
            || (denominator.function_ != "count" && denominator.function_ != "count_distinct"))
      {
        return false;
      }
      ok := above && below;
  }

  method AssertNumericBand(rules: Rules, resources: seq<Resource>, root: Resource, d: NumericBand) returns (ok: bool)
    ensures ok <==> NumericBandReviewed(rules, resources, root, d)
  {
    var normalized := rules.numericBand(d);
    if normalized.None? {
      return false;
    }
    var target := OperandTarget(root, normalized.value.relationship, resources);
    if target.None? {
      return false;
    }
    return normalized.value.field in target.value.aggregates;
  }

  method AssertAutoBand(rules: Rules, root: Resource, d: AutoBand) returns (ok: bool)
    ensures ok <==> AutoBandReviewed(rules, root, d)
  {
    var normalized := rules.autoBand(d);
    if normalized.None? || normalized.value.field !in root.aggregates {
      return false;
    }
    return normalized.value.field !in root.modelWithheld.GetOr([]) && normalized.value.field !in root.keptOut;
  }

  /** True where the original check of one definition returns, false where it throws. */
  method AssertMeasure(rules: Rules, resources: seq<Resource>, single: bool, root: Resource, d: DerivedMeasure)
    returns (ok: bool)
    ensures ok <==> MeasureReviewed(rules, resources, single, root, d)
  {
    if !rules.identifier(d.name) || !rules.caption(d.caption) {
      return false;
    }
    if d.ChildCount? {
      var resolved := ResolveReviewedChildCountLink(root.id, d.childResource, d.relationship, resources, single);
      ok := resolved.Some?;
    } else {
      ok := AssertOperands(root, d, resources);
    }
  }

  // ---- Trimming

  predicate WithinHops(limit: int, r: Relationship) {
    r.Depth() <= limit
  }

  function HopCheck(limit: int): Relationship -> bool {
    x => WithinHops(limit, x)
  }

  function PresenceCheck(r: Resource): string -> bool {
    f => PresenceAllowed(r, f)
  }

  function TrimRelationships(r: Resource, limit: int): Resource {
    r.(relationships := Filter(r.relationships, HopCheck(limit)))
  }

  predicate PresenceAllowed(r: Resource, field: string) {
    && field in r.selectable
    && field !in r.keptOut
    && field !in r.modelWithheld.GetOr([])
    && r.tenantKey != Some(field)
    && r.principalKey != Some(field)
  }

  function TrimFields(r: Resource): Resource {
    r.(aggregateFunctions :=
         if r.aggregateFunctions.None? then None
         else Some(map f | f in r.aggregateFunctions.value && f in r.aggregates :: r.aggregateFunctions.value[f]),
       presence :=
         if r.presence.None? then None
         else Some(Filter(r.presence.value, PresenceCheck(r))))
  }

  function Trimmed(r: Resource, limit: int): Resource {
    TrimFields(TrimRelationships(r, limit))
  }

  /** An emptied list is removed altogether. */
  function Kept<T>(definitions: Option<seq<T>>, keep: T -> bool): Option<seq<T>> {
    if definitions.None? then None
    else
      var kept := Filter(definitions.value, keep);
      if kept == [] then None else Some(kept)
  }

  ghost function MeasureCheck(rules: Rules, resources: seq<Resource>, single: bool, id: string): DerivedMeasure -> bool
  {
    d => SingleMeasure(rules, resources, single, id, d)
  }

  ghost function NumericBandCheck(rules: Rules, resources: seq<Resource>, id: string): NumericBand -> bool {
    d => SingleNumericBand(rules, resources, id, d)
  }

  ghost function AutoBandCheck(rules: Rules, resources: seq<Resource>, id: string): AutoBand -> bool {
    d => SingleAutoBand(rules, resources, id, d)
  }

  ghost function KeepMeasures(rules: Rules, resources: seq<Resource>, single: bool, r: Resource): Resource {
    r.(derivedMeasures := Kept(r.derivedMeasures, MeasureCheck(rules, resources, single, r.id)))
  }

  ghost function KeepNumericBands(rules: Rules, resources: seq<Resource>, r: Resource): Resource {
    r.(numericBands := Kept(r.numericBands, NumericBandCheck(rules, resources, r.id)))
  }

  ghost function KeepAutoBands(rules: Rules, resources: seq<Resource>, r: Resource): Resource {
    r.(autoBands := Kept(r.autoBands, AutoBandCheck(rules, resources, r.id)))
  }

  ghost function KeepDependents(rules: Rules, resources: seq<Resource>, single: bool, r: Resource): Resource {
    KeepAutoBands(rules, resources, KeepNumericBands(rules, resources, KeepMeasures(rules, resources, single, r)))
  }

  /** One definition checked on its own, for the resource the boundary lists under this id. */
  ghost predicate SingleMeasure(rules: Rules, resources: seq<Resource>, single: bool, id: string, d: DerivedMeasure) {
    var r := FindResource(resources, id);
    r.Some? && MeasureReviewed(rules, resources, single, r.value, d)
  }

  ghost predicate SingleNumericBand(rules: Rules, resources: seq<Resource>, id: string, d: NumericBand) {
    var r := FindResource(resources, id);
    r.Some? && NumericBandReviewed(rules, resources, r.value, d)
  }

  ghost predicate SingleAutoBand(rules: Rules, resources: seq<Resource>, id: string, d: AutoBand) {
    var r := FindResource(resources, id);
    r.Some? && AutoBandReviewed(rules, r.value, d)
  }

  function TrimmedResources(c: Draft): (rs: seq<Resource>)
    ensures |rs| == |c.resources|
    ensures forall i | 0 <= i < |rs| :: rs[i] == Trimmed(c.resources[i], AnalysisHopLimit(c.budgets))
  {
    seq(|c.resources|, i requires 0 <= i < |c.resources| => Trimmed(c.resources[i], AnalysisHopLimit(c.budgets)))
  }

  /** Every resource trimmed, and exactly the definitions that validate against the trimmed boundary. */
  ghost function NormalizedResources(rules: Rules, c: Draft): (rs: seq<Resource>)
    ensures |rs| == |c.resources|
    ensures forall i | 0 <= i < |rs| ::
      rs[i] == KeepDependents(rules, TrimmedResources(c), c.SingleOrganization(), TrimmedResources(c)[i])
  {
    var trimmed := TrimmedResources(c);
    seq(|c.resources|, i requires 0 <= i < |c.resources| =>
      KeepDependents(rules, trimmed, c.SingleOrganization(), trimmed[i]))
  }

  ghost function Normalized(rules: Rules, c: Draft): Draft {
    c.(resources := NormalizedResources(rules, c))
  }

  // ---- Validation never looks at the definitions it decides about

  /** What derived measures and numeric bands are checked against. */
  function Bare(r: Resource): Resource {
    r.(derivedMeasures := None, numericBands := None, autoBands := None, keptOut := [], minimumCohort := 1)
  }

  /** The lists differ at most in their definitions, cohorts and in what they keep out. */
  ghost predicate SameBare(a: seq<Resource>, b: seq<Resource>) {
    |a| == |b| && forall i | 0 <= i < |a| :: Bare(a[i]) == Bare(b[i])
  }

  predicate SameApartFromDefinitions(p: Resource, q: Resource) {
    Bare(p) == Bare(q) && p.keptOut == q.keptOut
  }

  /** The lists differ at most in their derived measures and bands. */
  ghost predicate SameAuthority(a: seq<Resource>, b: seq<Resource>) {
    |a| == |b| && forall i | 0 <= i < |a| :: SameApartFromDefinitions(a[i], b[i])
  }

  lemma SameAuthorityIsBare(a: seq<Resource>, b: seq<Resource>)
    requires SameAuthority(a, b)
    ensures SameBare(a, b)
  {
    forall i | 0 <= i < |a| ensures Bare(a[i]) == Bare(b[i]) {
      assert SameApartFromDefinitions(a[i], b[i]);
    }
  }

  lemma {:induction false} FindsSameAuthority(a: seq<Resource>, b: seq<Resource>, id: string)
    requires SameAuthority(a, b)
    ensures FindResource(a, id).Some? <==> FindResource(b, id).Some?
    ensures FindResource(a, id).Some? ==>
      SameApartFromDefinitions(FindResource(a, id).value, FindResource(b, id).value)
  {
    if a != [] {
      assert SameApartFromDefinitions(a[0], b[0]);
      assert a[0].id == Bare(a[0]).id && b[0].id == Bare(b[0]).id;
      if a[0].id != id {
        FindsSameAuthority(a[1..], b[1..], id);
      }
    }
  }

  lemma {:induction false} FindsSameBare(a: seq<Resource>, b: seq<Resource>, id: string)
    requires SameBare(a, b)
    ensures FindResource(a, id).Some? <==> FindResource(b, id).Some?
    ensures FindResource(a, id).Some? ==>
      Bare(FindResource(a, id).value) == Bare(FindResource(b, id).value)
  {
    if a != [] {
      assert Bare(a[0]) == Bare(b[0]);
      assert a[0].id == Bare(a[0]).id && b[0].id == Bare(b[0]).id;
      if a[0].id != id {
        FindsSameBare(a[1..], b[1..], id);
      }
    }
  }

  lemma BaseMeasureBlind(p: Resource, q: Resource, m: BaseMeasure, a: seq<Resource>, b: seq<Resource>)
    requires SameBare(a, b) && Bare(p) == Bare(q)
    ensures BaseMeasureReviewed(p, m, a) == BaseMeasureReviewed(q, m, b)
  {
    OperandTargetBlind(p, q, m.relationship, a, b);
  }

  lemma OperandTargetBlind(p: Resource, q: Resource, relationship: Option<string>, a: seq<Resource>, b: seq<Resource>)
    requires SameBare(a, b) && Bare(p) == Bare(q)
    ensures OperandTarget(p, relationship, a).Some? <==> OperandTarget(q, relationship, b).Some?
    ensures OperandTarget(p, relationship, a).Some? ==>
      Bare(OperandTarget(p, relationship, a).value)
        == Bare(OperandTarget(q, relationship, b).value)
  {
    assert p.id == Bare(p).id && q.id == Bare(q).id;
    assert p.relationships == Bare(p).relationships
      && q.relationships == Bare(q).relationships;
    FindsSameBare(a, b, p.id);
    if relationship.Some? {
      var r := FindRelationship(p.relationships, relationship.value);
      if r.Some? {
        FindsSameBare(a, b, r.value.target);
      }
    }
  }

  lemma AcceptsBlind(root: string, child: string, relationship: string, a: seq<Resource>, b: seq<Resource>,
                     single: bool, c: Resource, l: Link) returns (d: Resource)
    requires SameBare(a, b) && Accepts(root, child, relationship, a, single, c, l)
    ensures Accepts(root, child, relationship, b, single, d, l)
  {
    FindsSameBare(a, b, root);
    FindsSameBare(a, b, child);
    d := FindResource(b, child).value;
    assert ChildProofs(c, relationship) == ChildProofs(Bare(c), relationship);
    assert ChildProofs(d, relationship) == ChildProofs(Bare(d), relationship);
  }

  lemma SameBareSymmetric(a: seq<Resource>, b: seq<Resource>)
    requires SameBare(a, b)
    ensures SameBare(b, a)
  {
  }

  lemma MeasureBlind(rules: Rules, a: seq<Resource>, b: seq<Resource>, single: bool, p: Resource, q: Resource,
                     d: DerivedMeasure)
    requires SameBare(a, b) && Bare(p) == Bare(q)
    requires MeasureReviewed(rules, a, single, p, d)
    ensures MeasureReviewed(rules, b, single, q, d)
  {
    assert p.id == Bare(p).id == Bare(q).id == q.id;
    match d
    case PostAggregate(_, _, _, base, _, _) => BaseMeasureBlind(p, q, base, a, b);
    case Ratio(_, _, _, numerator, denominator, _) =>
      BaseMeasureBlind(p, q, numerator, a, b);
      BaseMeasureBlind(p, q, denominator, a, b);
    case ChildCount(_, _, _, childResource, relationship) =>
      var child, l :| Accepts(p.id, childResource, relationship, a, single, child, l);
      var other := AcceptsBlind(p.id, childResource, relationship, a, b, single, child, l);
  }

  lemma MeasuresBlind(rules: Rules, a: seq<Resource>, b: seq<Resource>, single: bool, p: Resource, q: Resource)
    requires SameBare(a, b) && Bare(p) == Bare(q)
    ensures forall d :: MeasureReviewed(rules, a, single, p, d) == MeasureReviewed(rules, b, single, q, d)
  {
    SameBareSymmetric(a, b);
    forall d ensures MeasureReviewed(rules, a, single, p, d) == MeasureReviewed(rules, b, single, q, d) {
      if MeasureReviewed(rules, a, single, p, d) {
        MeasureBlind(rules, a, b, single, p, q, d);
      } else if MeasureReviewed(rules, b, single, q, d) {
        MeasureBlind(rules, b, a, single, q, p, d);
      }
    }
  }

  lemma NumericBandsBlind(rules: Rules, a: seq<Resource>, b: seq<Resource>, p: Resource, q: Resource)
    requires SameBare(a, b) && Bare(p) == Bare(q)
    ensures forall d :: NumericBandReviewed(rules, a, p, d) == NumericBandReviewed(rules, b, q, d)
  {
    forall d ensures NumericBandReviewed(rules, a, p, d) == NumericBandReviewed(rules, b, q, d) {
      if rules.numericBand(d).Some? {
        OperandTargetBlind(p, q, rules.numericBand(d).value.relationship, a, b);
      }
    }
  }

  /** Whether a definition stands does not depend on which other definitions stand. */
  lemma SingleDefinitionsBlind(rules: Rules, a: seq<Resource>, b: seq<Resource>, single: bool, id: string)
    requires SameAuthority(a, b)
    ensures forall d :: SingleMeasure(rules, a, single, id, d) == SingleMeasure(rules, b, single, id, d)
    ensures forall d :: SingleNumericBand(rules, a, id, d) == SingleNumericBand(rules, b, id, d)
    ensures forall d :: SingleAutoBand(rules, a, id, d) == SingleAutoBand(rules, b, id, d)
  {
    SameAuthorityIsBare(a, b);
    FindsSameAuthority(a, b, id);
    if FindResource(a, id).Some? {
      var p, q := FindResource(a, id).value, FindResource(b, id).value;
      MeasuresBlind(rules, a, b, single, p, q);
      NumericBandsBlind(rules, a, b, p, q);
      assert p.aggregates == Bare(p).aggregates && q.aggregates == Bare(q).aggregates;
      assert p.modelWithheld == Bare(p).modelWithheld && q.modelWithheld == Bare(q).modelWithheld;
    }
  }

  lemma KeptSame<T(!new)>(definitions: Option<seq<T>>, p: T -> bool, q: T -> bool)
    requires forall x :: p(x) == q(x)
    ensures Kept(definitions, p) == Kept(definitions, q)
  {
    if definitions.Some? {
      SameFilter(definitions.value, p, q);
    }
  }

  lemma KeepMeasuresBlind(rules: Rules, a: seq<Resource>, b: seq<Resource>, single: bool, r: Resource)
    requires SameAuthority(a, b)
    ensures KeepMeasures(rules, a, single, r) == KeepMeasures(rules, b, single, r)
  {
    SingleDefinitionsBlind(rules, a, b, single, r.id);
    KeptSame(r.derivedMeasures, MeasureCheck(rules, a, single, r.id), MeasureCheck(rules, b, single, r.id));
  }

  lemma KeepNumericBandsBlind(rules: Rules, a: seq<Resource>, b: seq<Resource>, r: Resource)
    requires SameAuthority(a, b)
    ensures KeepNumericBands(rules, a, r) == KeepNumericBands(rules, b, r)
  {
    SingleDefinitionsBlind(rules, a, b, true, r.id);
    KeptSame(r.numericBands, NumericBandCheck(rules, a, r.id), NumericBandCheck(rules, b, r.id));
  }

  lemma KeepAutoBandsBlind(rules: Rules, a: seq<Resource>, b: seq<Resource>, r: Resource)
    requires SameAuthority(a, b)
    ensures KeepAutoBands(rules, a, r) == KeepAutoBands(rules, b, r)
  {
    SingleDefinitionsBlind(rules, a, b, true, r.id);
    KeptSame(r.autoBands, AutoBandCheck(rules, a, r.id), AutoBandCheck(rules, b, r.id));
  }

  lemma KeepDependentsBlind(rules: Rules, a: seq<Resource>, b: seq<Resource>, single: bool, r: Resource)
    requires SameAuthority(a, b)
    ensures KeepDependents(rules, a, single, r) == KeepDependents(rules, b, single, r)
  {
    KeepMeasuresBlind(rules, a, b, single, r);
    var m := KeepMeasures(rules, a, single, r);
    KeepNumericBandsBlind(rules, a, b, m);
    KeepAutoBandsBlind(rules, a, b, KeepNumericBands(rules, a, m));
  }

  // ---- The normaliser edits a clone in place

  method FilterMeasures(rules: Rules, resources: seq<Resource>, single: bool, id: string,
                        definitions: seq<DerivedMeasure>)
    returns (kept: seq<DerivedMeasure>)
    ensures kept == Filter(definitions, MeasureCheck(rules, resources, single, id))
  {
    kept := [];
    var root := FindResource(resources, id);
    ghost var keep := MeasureCheck(rules, resources, single, id);
    for i := 0 to |definitions|
      invariant kept == Filter(definitions[..i], keep)
    {
      var ok := false;
      if root.Some? {
        ok := AssertMeasure(rules, resources, single, root.value, definitions[i]);
      }
      FilterGrows(definitions, i, keep);
      if ok {
        kept := kept + [definitions[i]];
      }
    }
    assert definitions[..|definitions|] == definitions;
  }

  method FilterNumericBands(rules: Rules, resources: seq<Resource>, id: string, definitions: seq<NumericBand>)
    returns (kept: seq<NumericBand>)
    ensures kept == Filter(definitions, NumericBandCheck(rules, resources, id))
  {
    kept := [];
    var root := FindResource(resources, id);
    ghost var keep := NumericBandCheck(rules, resources, id);
    for i := 0 to |definitions|
      invariant kept == Filter(definitions[..i], keep)
    {
      FilterGrows(definitions, i, keep);
      var ok := false;
      if root.Some? {
        ok := AssertNumericBand(rules, resources, root.value, definitions[i]);
      }
      if ok {
        kept := kept + [definitions[i]];
      }
    }
    assert definitions[..|definitions|] == definitions;
  }

  method FilterAutoBands(rules: Rules, resources: seq<Resource>, id: string, definitions: seq<AutoBand>)
    returns (kept: seq<AutoBand>)
    ensures kept == Filter(definitions, AutoBandCheck(rules, resources, id))
  {
    kept := [];
    var root := FindResource(resources, id);
    ghost var keep := AutoBandCheck(rules, resources, id);
    for i := 0 to |definitions|
      invariant kept == Filter(definitions[..i], keep)
    {
      FilterGrows(definitions, i, keep);
      var ok := false;
      if root.Some? {
        ok := AssertAutoBand(rules, root.value, definitions[i]);
      }
      if ok {
        kept := kept + [definitions[i]];
      }
    }
    assert definitions[..|definitions|] == definitions;
  }

  method DropMeasures(rules: Rules, single: bool, rs: array<Resource>, i: nat)
    requires i < rs.Length
    modifies rs
    ensures rs[..] == old(rs[..])[i := KeepMeasures(rules, old(rs[..]), single, old(rs[i]))]
  {
    if rs[i].derivedMeasures.Some? {
      var kept := FilterMeasures(rules, rs[..], single, rs[i].id, rs[i].derivedMeasures.value);
      rs[i] := rs[i].(derivedMeasures := if kept == [] then None else Some(kept));
    }
  }

  method DropNumericBands(rules: Rules, rs: array<Resource>, i: nat)
    requires i < rs.Length
    modifies rs
    ensures rs[..] == old(rs[..])[i := KeepNumericBands(rules, old(rs[..]), old(rs[i]))]
  {
    if rs[i].numericBands.Some? {
      var kept := FilterNumericBands(rules, rs[..], rs[i].id, rs[i].numericBands.value);
      rs[i] := rs[i].(numericBands := if kept == [] then None else Some(kept));
    }
  }

  method DropAutoBands(rules: Rules, rs: array<Resource>, i: nat)
    requires i < rs.Length
    modifies rs
    ensures rs[..] == old(rs[..])[i := KeepAutoBands(rules, old(rs[..]), old(rs[i]))]
  {
    if rs[i].autoBands.Some? {
      var kept := FilterAutoBands(rules, rs[..], rs[i].id, rs[i].autoBands.value);
      rs[i] := rs[i].(autoBands := if kept == [] then None else Some(kept));
    }
  }

  lemma EditingDefinitionsKeepsAuthority(rs: seq<Resource>, i: nat, r: Resource)
    requires i < |rs| && SameApartFromDefinitions(r, rs[i])
    ensures SameAuthority(rs[i := r], rs)
  {
  }

  /** The three filters run one after the other, each seeing the resource the earlier ones left. */
  method DropInvalidDependents(rules: Rules, single: bool, rs: array<Resource>, i: nat)
    requires i < rs.Length
    modifies rs
    ensures rs[..] == old(rs[..])[i := KeepDependents(rules, old(rs[..]), single, old(rs[i]))]
  {
    ghost var before := rs[..];
    DropMeasures(rules, single, rs, i);
    ghost var measured := rs[i];
    EditingDefinitionsKeepsAuthority(before, i, measured);
    KeepNumericBandsBlind(rules, rs[..], before, measured);
    DropNumericBands(rules, rs, i);
    ghost var banded := rs[i];
    EditingDefinitionsKeepsAuthority(before, i, banded);
    assert rs[..] == before[i := banded];
    KeepAutoBandsBlind(rules, rs[..], before, banded);
    DropAutoBands(rules, rs, i);
  }

  method TrimRelationshipsInPlace(limit: int, rs: array<Resource>)
    modifies rs
    ensures forall k | 0 <= k < rs.Length :: rs[k] == TrimRelationships(old(rs[k]), limit)
  {
    for i := 0 to rs.Length
      invariant forall k | 0 <= k < i :: rs[k] == TrimRelationships(old(rs[k]), limit)
      invariant forall k | i <= k < rs.Length :: rs[k] == old(rs[k])
    {
      rs[i] := TrimRelationships(rs[i], limit);
    }
  }

  method TrimFieldsInPlace(rs: array<Resource>)
    modifies rs
    ensures forall k | 0 <= k < rs.Length :: rs[k] == TrimFields(old(rs[k]))
  {
    for i := 0 to rs.Length
      invariant forall k | 0 <= k < i :: rs[k] == TrimFields(old(rs[k]))
      invariant forall k | i <= k < rs.Length :: rs[k] == old(rs[k])
    {
      rs[i] := TrimFields(rs[i]);
    }
  }

  /** The first i resources have lost their invalid definitions; the others are still as given. */
  ghost predicate DroppedUpTo(rules: Rules, single: bool, given: seq<Resource>, rs: seq<Resource>, i: nat) {
    && |rs| == |given| && i <= |given|
    && (forall k | 0 <= k < i :: rs[k] == KeepDependents(rules, given, single, given[k]))
    && (forall k | i <= k < |given| :: rs[k] == given[k])
  }

  lemma DroppedSameAuthority(rules: Rules, single: bool, given: seq<Resource>, rs: seq<Resource>, i: nat)
    requires DroppedUpTo(rules, single, given, rs, i)
    ensures SameAuthority(rs, given)
  {
    forall k | 0 <= k < |rs| ensures SameApartFromDefinitions(rs[k], given[k]) {
      if k < i {
        assert rs[k] == KeepDependents(rules, given, single, given[k]);
      }
    }
  }

  lemma DroppedNext(rules: Rules, single: bool, given: seq<Resource>, rs: seq<Resource>, i: nat)
    requires DroppedUpTo(rules, single, given, rs, i) && i < |given|
    ensures DroppedUpTo(rules, single, given, rs[i := KeepDependents(rules, rs, single, rs[i])], i + 1)
  {
    DroppedSameAuthority(rules, single, given, rs, i);
    KeepDependentsBlind(rules, rs, given, single, given[i]);
  }

  /** Definitions are checked while earlier resources have already lost theirs; the outcome is the same. */
  method DropAllInvalidDependents(rules: Rules, single: bool, rs: array<Resource>)
    modifies rs
    ensures DroppedUpTo(rules, single, old(rs[..]), rs[..], rs.Length)
  {
    ghost var given := rs[..];
    for i := 0 to rs.Length
      invariant DroppedUpTo(rules, single, given, rs[..], i)
    {
      DroppedNext(rules, single, given, rs[..], i);
      DropInvalidDependents(rules, single, rs, i);
    }
  }

  method NormalizeDependentAggregateAuthority(rules: Rules, c: Draft) returns (normalized: Draft)
    ensures normalized == Normalized(rules, c)
  {
    var rs := new Resource[|c.resources|](i requires 0 <= i < |c.resources| => c.resources[i]);
    TrimRelationshipsInPlace(AnalysisHopLimit(c.budgets), rs);
    TrimFieldsInPlace(rs);
    assert rs[..] == TrimmedResources(c);
    DropAllInvalidDependents(rules, c.SingleOrganization(), rs);
    assert rs[..] == NormalizedResources(rules, c);
    normalized := c.(resources := rs[..]);
  }

  // ---- Normalising twice changes nothing more

  lemma KeptAgain<T>(definitions: Option<seq<T>>, keep: T -> bool)
    ensures Kept(Kept(definitions, keep), keep) == Kept(definitions, keep)
  {
    if definitions.Some? {
      FilterAgain(definitions.value, keep);
    }
  }

  lemma TrimFieldsAgain(r: Resource)
    ensures TrimFields(TrimFields(r)) == TrimFields(r)
  {
    var once := TrimFields(r);
    if r.presence.Some? {
      FilterAgain(r.presence.value, PresenceCheck(r));
      SamePresence(once.presence.value, r, once);
    }
    if r.aggregateFunctions.Some? {
      var m := once.aggregateFunctions.value;
      assert (map f | f in m && f in once.aggregates :: m[f]) == m;
    }
  }

  lemma TrimmedAgain(r: Resource, limit: int)
    ensures Trimmed(Trimmed(r, limit), limit) == Trimmed(r, limit)
  {
    var once := TrimRelationships(r, limit);
    FilterAgain(r.relationships, HopCheck(limit));
    assert TrimRelationships(once, limit) == once;
    TrimOrders(once, limit);
    TrimFieldsAgain(once);
  }

  /** What presence may measure depends on fields the trimming leaves alone. */
  lemma SamePresence(fields: seq<string>, p: Resource, q: Resource)
    requires q.selectable == p.selectable && q.keptOut == p.keptOut && q.modelWithheld == p.modelWithheld
    requires q.tenantKey == p.tenantKey && q.principalKey == p.principalKey
    ensures Filter(fields, PresenceCheck(p)) == Filter(fields, PresenceCheck(q))
  {
    SameFilter(fields, PresenceCheck(p), PresenceCheck(q));
  }

  lemma TrimOrders(r: Resource, limit: int)
    ensures TrimRelationships(TrimFields(r), limit) == TrimFields(TrimRelationships(r, limit))
  {
    if r.presence.Some? {
      SamePresence(r.presence.value, r, TrimRelationships(r, limit));
    }
  }

  lemma KeepDependentsAgain(rules: Rules, resources: seq<Resource>, single: bool, r: Resource)
    ensures KeepDependents(rules, resources, single, KeepDependents(rules, resources, single, r))
      == KeepDependents(rules, resources, single, r)
  {
    KeptAgain(r.derivedMeasures, MeasureCheck(rules, resources, single, r.id));
    KeptAgain(r.numericBands, NumericBandCheck(rules, resources, r.id));
    KeptAgain(r.autoBands, AutoBandCheck(rules, resources, r.id));
  }

  lemma TrimmedKeepsDependents(rules: Rules, resources: seq<Resource>, single: bool, r: Resource, limit: int)
    ensures Trimmed(KeepDependents(rules, resources, single, r), limit)
      == KeepDependents(rules, resources, single, Trimmed(r, limit))
  {
    var k := KeepDependents(rules, resources, single, r);
    if r.presence.Some? {
      SamePresence(r.presence.value, TrimRelationships(r, limit), TrimRelationships(k, limit));
    }
  }

  lemma TrimmingNormalizedChangesNothing(rules: Rules, c: Draft)
    ensures TrimmedResources(Normalized(rules, c)) == NormalizedResources(rules, c)
  {
    var n, limit := Normalized(rules, c), AnalysisHopLimit(c.budgets);
    forall i | 0 <= i < |c.resources| ensures TrimmedResources(n)[i] == n.resources[i] {
      TrimmedKeepsDependents(rules, TrimmedResources(c), c.SingleOrganization(), TrimmedResources(c)[i], limit);
      TrimmedAgain(c.resources[i], limit);
    }
  }

  /** Normalisation is idempotent. */
  lemma NormalizedTwice(rules: Rules, c: Draft)
    ensures Normalized(rules, Normalized(rules, c)) == Normalized(rules, c)
  {
    var n, single := Normalized(rules, c), c.SingleOrganization();
    var trimmed := TrimmedResources(c);
    TrimmingNormalizedChangesNothing(rules, c);
    assert SameAuthority(n.resources, trimmed);
    forall i | 0 <= i < |c.resources| ensures NormalizedResources(rules, n)[i] == n.resources[i] {
      KeepDependentsBlind(rules, n.resources, trimmed, single, n.resources[i]);
      KeepDependentsAgain(rules, trimmed, single, trimmed[i]);
    }
    assert NormalizedResources(rules, n) == n.resources;
  }

  /** A definition survives exactly when it validates, alone, against the normalised boundary. */
  lemma KeepsExactlyWhatValidates(rules: Rules, c: Draft, i: nat)
    requires i < |c.resources|
    ensures forall d ::
      d in Normalized(rules, c).resources[i].derivedMeasures.GetOr([]) <==>
        && d in c.resources[i].derivedMeasures.GetOr([])
        && SingleMeasure(rules, Normalized(rules, c).resources, c.SingleOrganization(), c.resources[i].id, d)
    ensures forall d ::
      d in Normalized(rules, c).resources[i].numericBands.GetOr([]) <==>
        && d in c.resources[i].numericBands.GetOr([])
        && SingleNumericBand(rules, Normalized(rules, c).resources, c.resources[i].id, d)
    ensures forall d ::
      d in Normalized(rules, c).resources[i].autoBands.GetOr([]) <==>
        && d in c.resources[i].autoBands.GetOr([])
        && SingleAutoBand(rules, Normalized(rules, c).resources, c.resources[i].id, d)
  {
    var n, single, trimmed := Normalized(rules, c), c.SingleOrganization(), TrimmedResources(c);
    var id := c.resources[i].id;
    assert SameAuthority(n.resources, trimmed);
    SingleDefinitionsBlind(rules, n.resources, trimmed, single, id);
    KeptMembers(c.resources[i].derivedMeasures, MeasureCheck(rules, trimmed, single, id));
    KeptMembers(c.resources[i].numericBands, NumericBandCheck(rules, trimmed, id));
    KeptMembers(c.resources[i].autoBands, AutoBandCheck(rules, trimmed, id));
  }

  lemma KeptMembers<T(!new)>(definitions: Option<seq<T>>, keep: T -> bool)
    ensures forall d :: d in Kept(definitions, keep).GetOr([]) <==> d in definitions.GetOr([]) && keep(d)
  {
    if definitions.Some? {
      FilterMembers(definitions.value, keep);
    }
  }

  predicate FirstResource(resources: seq<Resource>, id: string, i: int) {
    0 <= i < |resources| && resources[i].id == id && forall j | 0 <= j < i :: resources[j].id != id
  }

  predicate FirstRelationship(rs: seq<Relationship>, id: string, i: int) {
    0 <= i < |rs| && rs[i].id == id && forall j | 0 <= j < i :: rs[j].id != id
  }

  lemma {:induction false} FindsFirstResource(resources: seq<Resource>, id: string, i: int)
    requires FirstResource(resources, id, i)
    ensures FindResource(resources, id) == Some(resources[i])
  {
    if i > 0 {
      assert resources[0].id != id;
      FindsFirstResource(resources[1..], id, i - 1);
    }
  }

  lemma {:induction false} FindsFirstRelationship(rs: seq<Relationship>, id: string, i: int)
    requires FirstRelationship(rs, id, i)
    ensures FindRelationship(rs, id) == Some(rs[i])
  {
    if i > 0 {
      assert rs[0].id != id;
      FindsFirstRelationship(rs[1..], id, i - 1);
    }
  }

  /** The first relationship of this id leads to resource i. */
  predicate LeadsFirst(root: Resource, resources: seq<Resource>, relationship: Option<string>, k: int, i: int) {
    && relationship.Some? && FirstRelationship(root.relationships, relationship.value, k)
    && FirstResource(resources, root.relationships[k].target, i)
  }

  /** An operand without a relationship reads the resource itself, one with it the resource it leads to. */
  lemma OperandTargetIs(root: Resource, resources: seq<Resource>, relationship: Option<string>, k: int, i: int)
    ensures relationship.None? && FirstResource(resources, root.id, i) ==>
      OperandTarget(root, relationship, resources) == Some(resources[i])
    ensures LeadsFirst(root, resources, relationship, k, i) ==>
      OperandTarget(root, relationship, resources) == Some(resources[i])
    ensures relationship.Some? && (forall x | x in root.relationships :: x.id != relationship.value) ==>
      OperandTarget(root, relationship, resources).None?
  {
    if relationship.None? && FirstResource(resources, root.id, i) {
      FindsFirstResource(resources, root.id, i);
    }
    if LeadsFirst(root, resources, relationship, k, i) {
      FindsFirstRelationship(root.relationships, relationship.value, k);
      FindsFirstResource(resources, root.relationships[k].target, i);
    }
  }

  /** What measuring missing values may not be about: anything not shown, or the keys that scope the rows. */
  predicate MeasurablePresence(r: Resource, f: string) {
    f in r.selectable && f !in r.keptOut && f !in r.modelWithheld.GetOr([])
    && Some(f) != r.tenantKey && Some(f) != r.principalKey
  }

  /** The hop limit of the budgets, by its own name or the older shared one. */
  function AnalysisHops(b: Budgets): int {
    if "max_analysis_relationship_hops" in b then b["max_analysis_relationship_hops"] else b["max_relationship_hops"]
  }

  /** None only where nothing was reviewed or nothing is left. */
  predicate NoEmptyList<T(==)>(now: Option<seq<T>>) {
    now != Some([])
  }

  /**
   The normal form besides its definitions: relationships within the hop limit, in their order,
   function lists of aggregate fields, presence of fields shown that scope no rows; all else is as
   given, and no emptied list of definitions is left.
   */
  lemma NormalFormExactly(rules: Rules, c: Draft, i: nat)
    requires i < |c.resources|
    ensures
      var was, now := c.resources[i], Normalized(rules, c).resources[i];
      && now == was.(relationships := now.relationships, aggregateFunctions := now.aggregateFunctions,
                     presence := now.presence, derivedMeasures := now.derivedMeasures,
                     numericBands := now.numericBands, autoBands := now.autoBands)
      && now.relationships == Filter(was.relationships, (x: Relationship) => x.Depth() <= AnalysisHops(c.budgets))
      && (was.aggregateFunctions.None? <==> now.aggregateFunctions.None?)
      && (forall f :: f in now.aggregateFunctions.GetOr(map[]) <==>
            f in was.aggregateFunctions.GetOr(map[]) && f in was.aggregates)
      && (forall f | f in now.aggregateFunctions.GetOr(map[]) ::
            now.aggregateFunctions.value[f] == was.aggregateFunctions.value[f])
      && (was.presence.None? <==> now.presence.None?)
      && now.presence.GetOr([]) == Filter(was.presence.GetOr([]), f => MeasurablePresence(was, f))
      && NoEmptyList(now.derivedMeasures) && NoEmptyList(now.numericBands) && NoEmptyList(now.autoBands)
  {
    var was := c.resources[i];
    var trimmed := Trimmed(was, AnalysisHopLimit(c.budgets));
    SameFilter(was.relationships, HopCheck(AnalysisHopLimit(c.budgets)),
               (x: Relationship) => x.Depth() <= AnalysisHops(c.budgets));
    SameFilter(was.presence.GetOr([]), PresenceCheck(TrimRelationships(was, AnalysisHopLimit(c.budgets))),
               f => MeasurablePresence(was, f));
    assert TrimmedResources(c)[i] == trimmed;
  }
}
