/** The database as the program sees it through its metadata queries: the
    tables listed in `sqlite_master` (in the order the engine returns them),
    each with its `CREATE` statement, its `PRAGMA table_info` columns, the
    column names and rows `SELECT *` returns, and its `PRAGMA
    foreign_key_list` rows. The engine itself is not modelled; a catalog is
    given data. */
module Catalog {
  import opened Optional

  /** One cell value as Python sees it: `None`, or a value whose `str()`
      rendering is `text`. */
  datatype Value = Null | Val(text: string)

  type Row = seq<Value>

  /** A `PRAGMA table_info` row: field 1 is the name, field 2 the declared
      type and field 5 the primary-key position (0 when the column is not
      part of the primary key). */
  datatype Column = Column(name: string, sqlType: string, pk: nat)

  /** A `PRAGMA foreign_key_list` row: field 2 is the referenced table,
      field 3 the referencing column and field 4 the referenced column,
      which the engine reports as NULL when the key names no column. */
  datatype ForeignKey = ForeignKey(target: string, from: string, to: Option<string>)

  /** A table. `columns` are its `PRAGMA table_info` rows; `resultColumns`
      are the names `cursor.description` gives for `SELECT *` on it, which
      are a separate input because the two lists can differ (a generated
      column is returned by `SELECT *` but not listed by `table_info`). */
  datatype Table = Table(
    name: string,
    ddl: string,
    columns: seq<Column>,
    resultColumns: seq<string>,
    rows: seq<Row>,
    foreignKeys: seq<ForeignKey>)

  /** Every table of type 'table' in `sqlite_master`, in query order. */
  type Catalog = seq<Table>

  /** The table names, in catalog order: what `SELECT name FROM
      sqlite_master WHERE type='table'` returns. */
  function Names(c: Catalog): (r: seq<string>)
    ensures |r| == |c|
    ensures forall i :: 0 <= i < |r| ==> r[i] == c[i].name
  {
    seq(|c|, i requires 0 <= i < |c| => c[i].name)
  }
}
