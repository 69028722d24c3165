/** utils/erd_generator.py: the entity-relationship diagram as a graph
    description, up to (not including) Graphviz's layout and rendering.
    Every table of the catalog becomes one record node; every foreign-key
    row becomes one edge. */
module Erd {
  import opened Optional
  import opened Text
  import opened Catalog

  datatype Format = Png | Pdf

  /** A Graphviz `record` node: its id and its caption (label). */
  datatype Node = Node(id: string, caption: string)

  /** A Graphviz edge between `node:port` endpoints, with its caption (label). */
  datatype Edge = Edge(tail: string, head: string, caption: string)

  datatype Graph = Graph(nodes: seq<Node>, edges: seq<Edge>)

  /** What `generate_erd` is asked to render: where, in which format, and
      the graph it builds. */
  datatype Diagram = Diagram(path: string, format: Format, graph: Graph)

  /** The output format picked from the save path: `png` exactly when the
      path ends in `.png` (case-sensitive), `pdf` for everything else. */
  function FormatFor(path: string): (f: Format)
    ensures f == Png <==> EndsWith(path, ".png")
    ensures f == Pdf <==> !EndsWith(path, ".png")
  {
    if EndsWith(path, ".png") then Png else Pdf
  }

  /** Graphviz's left-justified line break in record labels: a backslash
      followed by `l`. */
  const LeftBreak := "\\l"

  /** One column's line in a record label: `name : type PK\l` for a
      primary-key column, `name : type \l` otherwise. */
  function ColumnLine(c: Column): (r: string)
    ensures StartsWith(r, c.name + " : " + c.sqlType + " ")
    ensures EndsWith(r, LeftBreak)
    ensures EndsWith(r, "PK" + LeftBreak) <==> c.pk != 0
    ensures |r| == |c.name| + |c.sqlType| + 4 + (if c.pk != 0 then 2 else 0) + |LeftBreak|
  {
    var head := c.name + " : " + c.sqlType + " ";
    var r := head + (if c.pk != 0 then "PK" else "") + LeftBreak;
    assert r[..|head|] == head;
    assert c.pk == 0 ==> r[|r| - 4..][1] == ' ';
    r
  }

  /** Given the column name, a line gives back the declared type and
      whether the column is part of the primary key. */
  lemma ColumnLineDecodes(a: Column, b: Column)
    requires a.name == b.name
    ensures ColumnLine(a) == ColumnLine(b) ==> a.sqlType == b.sqlType && (a.pk != 0 <==> b.pk != 0)
  {
    if ColumnLine(a) == ColumnLine(b) {
      var head := |a.name + " : "|;
      assert |a.sqlType| == |b.sqlType|;
      assert a.sqlType == ColumnLine(a)[head..head + |a.sqlType|];
      assert b.sqlType == ColumnLine(b)[head..head + |b.sqlType|];
    }
  }

  /** The column lines of a table, in `PRAGMA table_info` order. */
  function ColumnLines(cols: seq<Column>): string {
    if cols == [] then "" else ColumnLine(cols[0]) + ColumnLines(cols[1..])
  }

  /** A table's record label: `{name|<column lines>}`. */
  function Label(t: Table): (r: string)
    ensures |r| == |t.name| + |ColumnLines(t.columns)| + 3
    ensures r[0] == '{' && r[|r| - 1] == '}'
    ensures r[1..|t.name| + 2] == t.name + "|"
    ensures r[|t.name| + 2..|r| - 1] == ColumnLines(t.columns)
  {
    "{" + t.name + "|" + ColumnLines(t.columns) + "}"
  }

  /** One node per table, in catalog order, named after the table. */
  function Nodes(ts: seq<Table>): (r: seq<Node>)
    ensures |r| == |ts|
    ensures forall i :: 0 <= i < |ts| ==> r[i] == Node(ts[i].name, Label(ts[i]))
  {
    seq(|ts|, i requires 0 <= i < |ts| => Node(ts[i].name, Label(ts[i])))
  }

  /** Python's f-string rendering of the referenced column, which is
      `None` when the engine reports it as NULL. */
  function ColumnRef(to: Option<string>): string {
    match to
    case Some(name) => name
    case None => "None"
  }

  /** The edge for one foreign-key row of `table`: from `table:from` to
      `target:to`, labelled FK. */
  function FkEdge(table: string, fk: ForeignKey): Edge {
    Edge(table + ":" + fk.from, fk.target + ":" + ColumnRef(fk.to), "FK")
  }

  /** The edges of one table, one per foreign-key row, in PRAGMA order. */
  function TableEdges(t: Table): (r: seq<Edge>)
    ensures |r| == |t.foreignKeys|
    ensures forall i :: 0 <= i < |r| ==> r[i] == FkEdge(t.name, t.foreignKeys[i])
  {
    seq(|t.foreignKeys|, i requires 0 <= i < |t.foreignKeys| => FkEdge(t.name, t.foreignKeys[i]))
  }

  /** The number of foreign-key rows over all tables. */
  function FkCount(ts: seq<Table>): nat {
    if ts == [] then 0 else |ts[0].foreignKeys| + FkCount(ts[1..])
  }

  /** `e` leaves a column of the table named `table`. */
  predicate LeavesTable(e: Edge, table: string) {
    StartsWith(e.tail, table + ":")
  }

  /** All edges, table by table in catalog order: exactly one per
      foreign-key row, each labelled FK and leaving one of the listed
      tables. */
  function Edges(ts: seq<Table>): (r: seq<Edge>)
    ensures |r| == FkCount(ts)
    ensures forall k :: 0 <= k < |r| ==> r[k].caption == "FK"
    ensures forall k :: 0 <= k < |r| ==> exists i :: 0 <= i < |ts| && LeavesTable(r[k], ts[i].name)
  {
    if ts == [] then []
    else
      var own := TableEdges(ts[0]);
      var rest := Edges(ts[1..]);
      EdgesLeaveTables(ts, own, rest);
      own + rest
  }

  /** The step of `Edges`' contract: the first table's own edges leave it,
      and the rest leave one of the remaining tables. */
  lemma EdgesLeaveTables(ts: seq<Table>, own: seq<Edge>, rest: seq<Edge>)
    requires ts != [] && own == TableEdges(ts[0])
    requires forall k :: 0 <= k < |rest| ==>
               exists i :: 0 <= i < |ts[1..]| && LeavesTable(rest[k], ts[1..][i].name)
    ensures forall k :: 0 <= k < |own + rest| ==>
              exists i :: 0 <= i < |ts| && LeavesTable((own + rest)[k], ts[i].name)
  {
    var r := own + rest;
    forall k | 0 <= k < |r|
      ensures exists i :: 0 <= i < |ts| && LeavesTable(r[k], ts[i].name)
    {
      if k < |own| {
        var tail := ts[0].name + ":";
        assert r[k].tail[..|tail|] == tail;
        assert LeavesTable(r[k], ts[0].name);
      } else {
        var i :| 0 <= i < |ts[1..]| && LeavesTable(rest[k - |own|], ts[1..][i].name);
        assert LeavesTable(r[k], ts[i + 1].name);
      }
    }
  }

  /** The edges of a concatenation are the edges of each part, in order. */
  lemma {:induction false} EdgesAppend(a: seq<Table>, b: seq<Table>)
    ensures Edges(a + b) == Edges(a) + Edges(b)
  {
    if a == [] {
      assert a + b == b;
    } else {
      assert (a + b)[1..] == a[1..] + b;
      EdgesAppend(a[1..], b);
    }
  }

  /** The graph `generate_erd` builds from the catalog. */
  function BuildGraph(c: Catalog): (g: Graph)
    ensures |g.nodes| == |c|
    ensures forall i :: 0 <= i < |c| ==> g.nodes[i] == Node(c[i].name, Label(c[i]))
    ensures |g.edges| == FkCount(c)
    ensures forall k :: 0 <= k < |g.edges| ==>
              g.edges[k].caption == "FK" && exists i :: 0 <= i < |c| && LeavesTable(g.edges[k], c[i].name)
  {
    Graph(Nodes(c), Edges(c))
  }

  /** `generate_erd_dialog` followed by `generate_erd` up to rendering: no
      diagram when the save dialog is cancelled; otherwise the graph of the
      whole catalog, in the format the path's suffix selects. */
  function GenerateErdDialog(chosen: string, c: Catalog): (r: Option<Diagram>)
    ensures r.None? <==> chosen == ""
    ensures r.Some? ==> r.value.path == chosen && r.value.format == FormatFor(chosen)
    ensures r.Some? ==> r.value.graph == BuildGraph(c)
  {
    if chosen == "" then None else Some(Diagram(chosen, FormatFor(chosen), BuildGraph(c)))
  }

  /** Node ids are the table names, one node per table, in catalog order;
      the bookkeeping table `sqlite_sequence` gets a node like any other. */
  lemma NodesAreTables(c: Catalog)
    ensures var g := BuildGraph(c);
            |g.nodes| == |c| && (forall i :: 0 <= i < |c| ==> g.nodes[i].id == c[i].name)
  {
  }

  /** Edge targets are not checked against the listed tables: a key that
      references a table missing from the catalog still yields an edge
      whose head names no node. */
  lemma EdgeTargetUnchecked()
    ensures var c := [Table("orders", "CREATE TABLE orders(c)", [Column("c", "INTEGER", 0)], ["c"], [],
                            [ForeignKey("customers", "c", Some("id"))])];
            var g := BuildGraph(c);
            |g.edges| == 1 && g.edges[0] == Edge("orders:c", "customers:id", "FK")
            && forall i :: 0 <= i < |g.nodes| ==> g.nodes[i].id != "customers"
  {
    var c := [Table("orders", "CREATE TABLE orders(c)", [Column("c", "INTEGER", 0)], ["c"], [],
                    [ForeignKey("customers", "c", Some("id"))])];
    assert c[1..] == [];
    assert Edges(c) == TableEdges(c[0]);
  }
}
