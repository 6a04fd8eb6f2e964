/**
 Catalog facts shared by every component: inspected tables, the proof that a
 foreign key reaches at most one row, and the digest that binds a path of links.
 */
module Catalog {

  datatype Option<+T> = None | Some(value: T) {
    function GetOr(default: T): T {
      match this
      case Some(v) => v
      case None => default
    }
  }

  datatype UniquenessKind = PrimaryKey | UniqueConstraint | UniqueIndex

  datatype Uniqueness = Uniqueness(kind: UniquenessKind, name: string, columns: seq<string>)

  datatype Cardinality = ManyToOne | OtherCardinality

  /** One foreign-key hop together with the key that bounds its fan-out. */
  datatype Link = Link(
    constraintName: string,
    source: string,
    target: string,
    sourceColumns: seq<string>,
    targetColumns: seq<string>,
    uniqueness: Uniqueness,
    nullable: bool,
    cardinality: Cardinality,
    maxFanOut: int)

  /** A collision-free digest: two link lists share a digest only when they are equal. */
  datatype LinkDigest = LinkDigest(links: seq<Link>)

  datatype LinkProof = LinkProof(source: string, links: seq<Link>, digest: LinkDigest)

  const DATABASE_CATALOG := "database_catalog"

  /** A mandatory path from a resource to the ancestor that carries its scope column. */
  datatype ScopePath = ScopePath(
    mode: string,
    pathId: string,
    ancestor: string,
    column: string,
    proof: LinkProof)

  datatype ScopeKind = Tenant | Principal

  datatype Column = Column(
    name: string,
    dataType: string,
    nullable: bool,
    enumValues: seq<string>,
    largeOrBinary: bool)

  datatype NamedKey = NamedKey(name: string, columns: seq<string>)

  datatype Index = Index(name: string, unique: bool, columns: seq<string>)

  datatype ForeignKey = ForeignKey(
    name: string,
    columns: seq<string>,
    referencedSchema: string,
    referencedTable: string,
    referencedColumns: seq<string>)

  datatype Table = Table(
    schema: string,
    name: string,
    columns: seq<Column>,
    primaryKey: seq<string>,
    uniqueConstraints: seq<NamedKey>,
    indexes: seq<Index>,
    foreignKeys: seq<ForeignKey>)
  {
    function Id(): string {
      QualifiedName(schema, name)
    }
  }

  /** Inspected tables by qualified name. */
  type Inspection = map<string, Table>

  function QualifiedName(schema: string, name: string): string {
    schema + "." + name
  }

  predicate WellKeyed(tables: Inspection) {
    forall id | id in tables :: tables[id].Id() == id
  }

  /** The column's declaration, if the table has one under that name. */
  function FindColumn(columns: seq<Column>, name: string): (c: Option<Column>)
    ensures c.Some? ==> c.value in columns && c.value.name == name
    ensures c.None? ==> forall k | 0 <= k < |columns| :: columns[k].name != name
  {
    if columns == [] then None
    else if columns[0].name == name then Some(columns[0])
    else FindColumn(columns[1..], name)
  }

  /** A column counts as nullable unless the catalog says it is not. */
  predicate ColumnNotNull(t: Table, name: string) {
    var c := FindColumn(t.columns, name);
    c.Some? && !c.value.nullable
  }

  predicate KeyNotNull(t: Table, columns: seq<string>) {
    forall k | 0 <= k < |columns| :: ColumnNotNull(t, columns[k])
  }

  function FindKey(keys: seq<NamedKey>, columns: seq<string>): (k: Option<NamedKey>)
    ensures k.Some? ==> k.value in keys && k.value.columns == columns
    ensures k.None? ==> forall i | 0 <= i < |keys| :: keys[i].columns != columns
  {
    if keys == [] then None
    else if keys[0].columns == columns then Some(keys[0])
    else FindKey(keys[1..], columns)
  }

  function FindUniqueIndex(indexes: seq<Index>, columns: seq<string>): (x: Option<Index>)
    ensures x.Some? ==> x.value in indexes && x.value.unique && x.value.columns == columns
    ensures x.None? ==> forall i | 0 <= i < |indexes| :: !(indexes[i].unique && indexes[i].columns == columns)
  {
    if indexes == [] then None
    else if indexes[0].unique && indexes[0].columns == columns then Some(indexes[0])
    else FindUniqueIndex(indexes[1..], columns)
  }

  /** The table declares some key over exactly these columns, in this order. */
  ghost predicate DeclaresKey(t: Table, columns: seq<string>) {
    || t.primaryKey == columns
    || (exists k | k in t.uniqueConstraints :: k.columns == columns)
    || (exists x | x in t.indexes :: x.unique && x.columns == columns)
  }

  /**
   The strongest declared key over exactly these columns: the primary key first, then a
   unique constraint, then a unique index.
   */
  function TargetUniqueness(target: Table, columns: seq<string>): (u: Option<Uniqueness>)
    ensures u.Some? <==> DeclaresKey(target, columns)
    ensures u.Some? ==> u.value.columns == columns
    ensures u.Some? ==> (u.value.kind.PrimaryKey? <==> target.primaryKey == columns)
    ensures u.Some? && u.value.kind.UniqueIndex? ==> forall k | k in target.uniqueConstraints :: k.columns != columns
  {
    var constraint := FindKey(target.uniqueConstraints, columns);
    var index := FindUniqueIndex(target.indexes, columns);
    if target.primaryKey == columns then
      var name :=
        if constraint.Some? then constraint.value.name
        else if index.Some? then index.value.name
        else QualifiedName(target.schema, target.name) + ".primary_key";
      Some(Uniqueness(PrimaryKey, name, columns))
    else if constraint.Some? then
      Some(Uniqueness(UniqueConstraint, constraint.value.name, columns))
    else if index.Some? then
      Some(Uniqueness(UniqueIndex, index.value.name, columns))
    else
      None
  }

  /** The scope path's identifier: its constraint names joined by a double underscore. */
  function PathId(links: seq<Link>): string {
    if links == [] then ""
    else if |links| == 1 then links[0].constraintName
    else links[0].constraintName + "__" + PathId(links[1..])
  }

  /** The id of a path in two parts is the two ids with a double underscore between them. */
  lemma {:induction false} PathIdJoins(a: seq<Link>, b: seq<Link>)
    requires a != [] && b != []
    ensures PathId(a + b) == PathId(a) + "__" + PathId(b)
    ensures |a| == 1 ==> PathId(a) == a[0].constraintName
  {
    assert (a + b)[0] == a[0] && (a + b)[1..] == a[1..] + b;
    if |a| > 1 {
      PathIdJoins(a[1..], b);
    }
  }
}
