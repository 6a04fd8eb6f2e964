/**
 Rows, keys and inner joins: what the catalog facts mean for the data a query returns.
 A table instance is a sequence of rows, so duplicated rows keep their multiplicity.
 */
module Relational {
  import opened Catalog

  datatype Cell = Null | Value(v: int)

  type Row = map<string, Cell>

  type Database = map<string, seq<Row>>

  function Rows(db: Database, resource: string): seq<Row> {
    if resource in db then db[resource] else []
  }

  function At(row: Row, column: string): Cell {
    if column in row then row[column] else Null
  }

  function Key(row: Row, columns: seq<string>): (key: seq<Cell>)
    ensures |key| == |columns|
    ensures forall i | 0 <= i < |columns| :: key[i] == At(row, columns[i])
  {
    if columns == [] then [] else [At(row, columns[0])] + Key(row, columns[1..])
  }

  predicate Complete(key: seq<Cell>) {
    forall i | 0 <= i < |key| :: key[i] != Null
  }

  /** SQL uniqueness: no two rows carry the same key, keys with a NULL excepted. */
  ghost predicate KeyUnique(rows: seq<Row>, columns: seq<string>) {
    forall i, j | 0 <= i < j < |rows| ::
      Complete(Key(rows[i], columns)) ==> Key(rows[i], columns) != Key(rows[j], columns)
  }

  /** The equality predicate of the join; NULL equals nothing. */
  predicate Matches(l: Link, row: Row, target: Row) {
    && Complete(Key(row, l.sourceColumns))
    && Key(target, l.targetColumns) == Key(row, l.sourceColumns)
  }

  ghost predicate Referenced(db: Database, l: Link, row: Row) {
    exists t | t in Rows(db, l.target) :: Matches(l, row, t)
  }

  /** The data obeys the link: the target key is unique, non-null sources hold, references resolve. */
  ghost predicate LinkHolds(db: Database, l: Link) {
    && KeyUnique(Rows(db, l.target), l.uniqueness.columns)
    && (!l.nullable ==> forall row | row in Rows(db, l.source) :: Complete(Key(row, l.sourceColumns)))
    && (forall row | row in Rows(db, l.source) && Complete(Key(row, l.sourceColumns)) :: Referenced(db, l, row))
  }

  /** Every row of `candidates` that the link joins to `row`, in table order. */
  function Joined(l: Link, row: Row, candidates: seq<Row>): seq<Row> {
    if candidates == [] then []
    else (if Matches(l, row, candidates[0]) then [candidates[0]] else []) + Joined(l, row, candidates[1..])
  }

  /** The last component of every tuple the inner join along links[from..] builds from `row`. */
  function Reached(db: Database, links: seq<Link>, from: nat, row: Row): seq<Row>
    decreases |links| - from, 0, 0
  {
    if from >= |links| then [row]
    else ReachedFromAll(db, links, from + 1, Joined(links[from], row, Rows(db, links[from].target)))
  }

  function ReachedFromAll(db: Database, links: seq<Link>, from: nat, rows: seq<Row>): seq<Row>
    decreases |links| - from, 1, |rows|
  {
    if rows == [] then []
    else Reached(db, links, from, rows[0]) + ReachedFromAll(db, links, from, rows[1..])
  }

  lemma {:induction false} JoinedMembers(l: Link, row: Row, candidates: seq<Row>)
    ensures forall t :: t in Joined(l, row, candidates) <==> t in candidates && Matches(l, row, t)
  {
    if candidates != [] {
      JoinedMembers(l, row, candidates[1..]);
      assert candidates == [candidates[0]] + candidates[1..];
    }
  }

  lemma {:induction false} JoinedNone(l: Link, row: Row, candidates: seq<Row>)
    requires forall j | 0 <= j < |candidates| :: !Matches(l, row, candidates[j])
    ensures Joined(l, row, candidates) == []
  {
    if candidates != [] {
      JoinedNone(l, row, candidates[1..]);
    }
  }

  /** A unique target key bounds the join's fan-out at one. */
  lemma {:induction false} JoinedAtMostOne(l: Link, row: Row, candidates: seq<Row>)
    requires KeyUnique(candidates, l.targetColumns)
    ensures |Joined(l, row, candidates)| <= 1
  {
    if candidates != [] {
      assert KeyUnique(candidates[1..], l.targetColumns) by {
        forall i, j | 0 <= i < j < |candidates[1..]| && Complete(Key(candidates[1..][i], l.targetColumns))
          ensures Key(candidates[1..][i], l.targetColumns) != Key(candidates[1..][j], l.targetColumns)
        {
          assert candidates[1..][i] == candidates[i + 1] && candidates[1..][j] == candidates[j + 1];
        }
      }
      JoinedAtMostOne(l, row, candidates[1..]);
      if Matches(l, row, candidates[0]) {
        forall j | 0 <= j < |candidates[1..]| ensures !Matches(l, row, candidates[1..][j]) {
          assert Key(candidates[0], l.targetColumns) != Key(candidates[j + 1], l.targetColumns);
        }
        JoinedNone(l, row, candidates[1..]);
      }
    }
  }

  /** Along a non-null link into a unique key, the join returns exactly one target row. */
  lemma JoinedExactlyOne(db: Database, l: Link, row: Row)
    requires LinkHolds(db, l) && !l.nullable && l.uniqueness.columns == l.targetColumns
    requires row in Rows(db, l.source)
    ensures |Joined(l, row, Rows(db, l.target))| == 1
    ensures Joined(l, row, Rows(db, l.target))[0] in Rows(db, l.target)
    ensures Matches(l, row, Joined(l, row, Rows(db, l.target))[0])
  {
    JoinedAtMostOne(l, row, Rows(db, l.target));
    JoinedMembers(l, row, Rows(db, l.target));
    assert Referenced(db, l, row);
    var t :| t in Rows(db, l.target) && Matches(l, row, t);
    assert t in Joined(l, row, Rows(db, l.target));
  }
}
