/** utils/exporter.py: the `.sql` dump. For each table except
    `sqlite_sequence`, in catalog order: its `CREATE` statement followed by
    `;` and a blank line, then, when the table has rows, one `INSERT` line
    per row and one more blank line. */
module Exporter {
  import opened Optional
  import opened Text
  import opened Catalog
  import opened UiBuilder

  /** The engine's AUTOINCREMENT bookkeeping table, left out of the dump. */
  const SequenceTable := "sqlite_sequence"

  /** The tables the dump covers: every table except `sqlite_sequence`, in
      catalog order. */
  function ExportedTables(c: Catalog): (r: Catalog)
    ensures |r| <= |c|
    ensures forall i :: 0 <= i < |r| ==> r[i].name != SequenceTable
  {
    if c == [] then []
    else (if c[0].name != SequenceTable then [c[0]] else []) + ExportedTables(c[1..])
  }

  /** The dump covers exactly the tables of the catalog not named
      `sqlite_sequence`. */
  lemma {:induction false} ExportedTablesMembers(c: Catalog)
    ensures forall t :: t in ExportedTables(c) <==> t in c && t.name != SequenceTable
  {
    if c != [] {
      ExportedTablesMembers(c[1..]);
      assert c == [c[0]] + c[1..];
    }
  }

  /** The filter keeps relative order: dumping two catalogs one after the
      other covers the same tables as dumping their concatenation. */
  lemma {:induction false} ExportedTablesAppend(a: Catalog, b: Catalog)
    ensures ExportedTables(a + b) == ExportedTables(a) + ExportedTables(b)
  {
    if a == [] {
      assert a + b == b;
    } else {
      assert (a + b)[1..] == a[1..] + b;
      ExportedTablesAppend(a[1..], b);
    }
  }

  /** A catalog without `sqlite_sequence` is covered whole and in order. */
  lemma {:induction false} ExportedTablesKeepsUserTables(c: Catalog)
    requires forall i :: 0 <= i < |c| ==> c[i].name != SequenceTable
    ensures ExportedTables(c) == c
  {
    if c != [] {
      ExportedTablesKeepsUserTables(c[1..]);
    }
  }

  /** One value in a VALUES list: `None` is the bare word NULL, anything
      else is its text between single quotes, with embedded quotes left as
      they are. */
  function RenderValue(v: Value): (r: string)
    ensures r == "NULL" <==> v.Null?
    ensures v.Val? ==> |r| == |v.text| + 2 && r[0] == '\'' && r[|r| - 1] == '\''
                       && r[1..|r| - 1] == v.text
  {
    match v
    case Null => "NULL"
    case Val(text) =>
      var r := "'" + text + "'";
      assert r[0] != "NULL"[0];
      r
  }

  /** A single rendered value determines the value: NULL and the text
      `NULL` stay apart. */
  lemma RenderValueInjective(a: Value, b: Value)
    ensures RenderValue(a) == RenderValue(b) ==> a == b
  {
    if RenderValue(a) == RenderValue(b) && a.Val? && b.Val? {
      assert a.text == RenderValue(a)[1..|RenderValue(a)| - 1];
    }
  }

  /** The rendered values of a row, one per value, in column order. */
  function RenderRow(row: Row): (r: seq<string>)
    ensures |r| == |row|
    ensures forall i :: 0 <= i < |row| ==> r[i] == RenderValue(row[i])
  {
    seq(|row|, i requires 0 <= i < |row| => RenderValue(row[i]))
  }

  /** The VALUES list of an INSERT. */
  function ValuesList(row: Row): string {
    Join(RenderRow(row), ", ")
  }

  /** The VALUES list grows by one rendered value per column, after a
      comma and a space: one entry per value, in column order. */
  lemma ValuesListSnoc(row: Row, v: Value)
    ensures ValuesList(row + [v]) ==
            if row == [] then RenderValue(v) else ValuesList(row) + ", " + RenderValue(v)
  {
    assert RenderRow(row + [v]) == RenderRow(row) + [RenderValue(v)];
    JoinSnoc(RenderRow(row), RenderValue(v), ", ");
  }

  /** Because quotes are not escaped, two different rows can produce the
      same VALUES list, so a dump cannot in general be read back. */
  lemma ValuesListAmbiguous()
    ensures var one: Row := [Val("a', 'b")];
            var two: Row := [Val("a"), Val("b")];
            one != two && ValuesList(one) == ValuesList(two)
  {
    var one: Row := [Val("a', 'b")];
    var two: Row := [Val("a"), Val("b")];
    assert RenderValue(Val("a', 'b")) == "'a', 'b'";
    assert RenderValue(Val("a")) == "'a'";
    assert RenderValue(Val("b")) == "'b'";
    assert RenderRow(one) == ["'a', 'b'"];
    assert RenderRow(two) == ["'a'", "'b'"];
    assert Join(["'a'", "'b'"], ", ") == "'a'" + ", " + Join(["'b'"], ", ");
  }

  /** Everything of an INSERT before its VALUES list. */
  function InsertHead(table: string, columns: seq<string>): string {
    "INSERT INTO " + table + " (" + Join(columns, ", ") + ") VALUES ("
  }

  /** One INSERT statement: `INSERT INTO <table> (<columns>) VALUES
      (<values>);`. */
  function InsertStatement(table: string, columns: seq<string>, row: Row): (r: string)
    ensures StartsWith(r, "INSERT INTO " + table + " (")
    ensures EndsWith(r, ");")
    ensures |r| == |InsertHead(table, columns)| + |ValuesList(row)| + 2
    ensures r[|InsertHead(table, columns)|..|r| - 2] == ValuesList(row)
    ensures var open := |"INSERT INTO " + table + " ("|;
            r[open..open + |Join(columns, ", ")|] == Join(columns, ", ")
    ensures r[|"INSERT INTO " + table + " (" + Join(columns, ", ")|..|InsertHead(table, columns)|] == ") VALUES ("
  {
    var head := InsertHead(table, columns);
    var r := head + ValuesList(row) + ");";
    assert r[..|"INSERT INTO " + table + " ("|] == "INSERT INTO " + table + " (";
    r
  }

  /** For a given table and row, the statement determines its column
      list, as long as the list is not empty and no column name contains a
      comma. */
  lemma InsertStatementDeterminesColumns(table: string, a: seq<string>, b: seq<string>, row: Row)
    requires a != [] && b != []
    requires forall i :: 0 <= i < |a| ==> ',' !in a[i]
    requires forall i :: 0 <= i < |b| ==> ',' !in b[i]
    ensures InsertStatement(table, a, row) == InsertStatement(table, b, row) ==> a == b
  {
    if InsertStatement(table, a, row) == InsertStatement(table, b, row) {
      var r := InsertStatement(table, a, row);
      var open := |"INSERT INTO " + table + " ("|;
      assert |Join(a, ", ")| == |Join(b, ", ")|;
      assert Join(a, ", ") == r[open..open + |Join(a, ", ")|] == Join(b, ", ");
      JoinInjective(a, b);
    }
  }

  /** The INSERT statements for `rows`, one per row, in row order. */
  function InsertLines(table: string, columns: seq<string>, rows: seq<Row>): (r: seq<string>)
    ensures |r| == |rows|
    ensures forall i :: 0 <= i < |rows| ==> r[i] == InsertStatement(table, columns, rows[i])
  {
    if rows == [] then []
    else [InsertStatement(table, columns, rows[0])] + InsertLines(table, columns, rows[1..])
  }

  /** Each string followed by a newline, all concatenated: what a sequence
      of `f.write(line + "\n")` calls writes. */
  function WriteLines(lines: seq<string>): string {
    if lines == [] then "" else lines[0] + "\n" + WriteLines(lines[1..])
  }

  /** What the dump writes for one table: the DDL block, then the INSERT
      lines and a closing blank line when the table has rows. */
  function TableDump(t: Table): (r: string)
    ensures StartsWith(r, t.ddl + ";\n\n")
    ensures t.rows == [] ==> r == t.ddl + ";\n\n"
    ensures t.rows != [] ==> EndsWith(r, ");\n\n")
  {
    var block := t.ddl + ";\n\n";
    if t.rows == [] then block
    else
      var lines := InsertLines(t.name, t.resultColumns, t.rows);
      WriteLinesEnds(lines);
      DumpShape(block, WriteLines(lines));
      block + WriteLines(lines) + "\n"
  }

  /** A DDL block followed by a body that ends in `);` and a newline, and
      one more newline, starts with the block and ends with `);` and two
      newlines. */
  lemma DumpShape(block: string, body: string)
    requires EndsWith(body, ");\n")
    ensures StartsWith(block + body + "\n", block)
    ensures EndsWith(block + body + "\n", ");\n\n")
  {
    var front := body[..|body| - 3];
    assert body == front + ");\n";
    var r := block + body + "\n";
    assert r == (block + front) + ");\n\n";
    assert r[..|block|] == block;
  }

  /** The text of lines that all end in `);` ends in `);` and a newline. */
  lemma {:induction false} WriteLinesEnds(lines: seq<string>)
    requires lines != []
    requires forall i :: 0 <= i < |lines| ==> EndsWith(lines[i], ");")
    ensures EndsWith(WriteLines(lines), ");\n")
  {
    if |lines| == 1 {
      assert WriteLines(lines) == lines[0] + "\n";
    } else {
      WriteLinesEnds(lines[1..]);
      var rest := WriteLines(lines[1..]);
      assert WriteLines(lines) == lines[0] + "\n" + rest;
      assert WriteLines(lines)[|WriteLines(lines)| - 3..] == rest[|rest| - 3..];
    }
  }

  /** The lines of a table's dump, without their newlines: the DDL with
      its semicolon, a blank line, the INSERTs, and a final blank line
      only when there is at least one INSERT. */
  function DumpLines(t: Table): (r: seq<string>)
    ensures |r| == 2 + |t.rows| + (if t.rows == [] then 0 else 1)
    ensures r[0] == t.ddl + ";" && r[1] == ""
    ensures forall i :: 0 <= i < |t.rows| ==>
              r[2 + i] == InsertStatement(t.name, t.resultColumns, t.rows[i])
    ensures t.rows != [] ==> r[|r| - 1] == ""
  {
    [t.ddl + ";", ""] + InsertLines(t.name, t.resultColumns, t.rows)
      + (if t.rows == [] then [] else [""])
  }

  lemma {:induction false} WriteLinesAppend(a: seq<string>, b: seq<string>)
    ensures WriteLines(a + b) == WriteLines(a) + WriteLines(b)
  {
    if a == [] {
      assert a + b == b;
    } else {
      assert (a + b)[1..] == a[1..] + b;
      WriteLinesAppend(a[1..], b);
    }
  }

  /** A table's dump is exactly its `DumpLines`, each ended by a newline:
      the DDL block comes first, then exactly one line per row, then the
      blank line that only a table with rows gets. */
  lemma TableDumpIsLines(t: Table)
    ensures TableDump(t) == WriteLines(DumpLines(t))
  {
    var lines := InsertLines(t.name, t.resultColumns, t.rows);
    assert lines == [] <==> t.rows == [];
    BlockAndLines(t.ddl, lines);
  }

  /** The text of a DDL line, a blank line, some lines, and one more blank
      line when there are any. */
  lemma BlockAndLines(ddl: string, lines: seq<string>)
    ensures WriteLines([ddl + ";", ""] + lines + (if lines == [] then [] else [""]))
         == ddl + ";\n\n" + (if lines == [] then "" else WriteLines(lines) + "\n")
  {
    var tail: seq<string> := if lines == [] then [] else [""];
    assert [ddl + ";", ""] + lines + tail == [ddl + ";", ""] + (lines + tail);
    WriteLinesAppend([ddl + ";", ""], lines + tail);
    WriteLinesAppend(lines, tail);
    assert WriteLines([""]) == "\n" by { assert [""][1..] == []; }
    assert WriteLines([ddl + ";", ""]) == ddl + ";\n\n" by {
      assert [ddl + ";", ""][1..] == [""];
    }
  }

  /** The whole dump: the tables' dumps in catalog order, skipping
      `sqlite_sequence`. */
  function Export(c: Catalog): (r: string)
    ensures ExportedTables(c) == [] ==> r == ""
    ensures c != [] && c[0].name != SequenceTable ==> StartsWith(r, c[0].ddl + ";\n\n")
  {
    if c == [] then ""
    else
      var head := if c[0].name == SequenceTable then "" else TableDump(c[0]);
      var r := head + Export(c[1..]);
      assert c[0].name != SequenceTable ==> r[..|c[0].ddl + ";\n\n"|] == head[..|c[0].ddl + ";\n\n"|];
      r
  }

  /** The dump of a concatenation is the concatenation of the dumps. */
  lemma {:induction false} ExportAppend(a: Catalog, b: Catalog)
    ensures Export(a + b) == Export(a) + Export(b)
  {
    if a == [] {
      assert a + b == b;
    } else {
      assert (a + b)[1..] == a[1..] + b;
      ExportAppend(a[1..], b);
      var head := if a[0].name == SequenceTable then "" else TableDump(a[0]);
      assert Export(a + b) == head + Export(a[1..] + b);
    }
  }

  /** The dumps of a sequence of tables, in order, with no filtering. */
  function DumpAll(ts: seq<Table>): string {
    if ts == [] then "" else TableDump(ts[0]) + DumpAll(ts[1..])
  }

  lemma {:induction false} DumpAllAppend(a: seq<Table>, b: seq<Table>)
    ensures DumpAll(a + b) == DumpAll(a) + DumpAll(b)
  {
    if a == [] {
      assert a + b == b;
    } else {
      assert (a + b)[1..] == a[1..] + b;
      DumpAllAppend(a[1..], b);
    }
  }

  /** The dump is the dumps of exactly the exported tables, in order. */
  lemma {:induction false} ExportIsDumpOfExportedTables(c: Catalog)
    ensures Export(c) == DumpAll(ExportedTables(c))
  {
    if c != [] {
      ExportIsDumpOfExportedTables(c[1..]);
      var head := if c[0].name != SequenceTable then [c[0]] else [];
      DumpAllAppend(head, ExportedTables(c[1..]));
      if head != [] {
        assert DumpAll(head) == TableDump(c[0]) by { assert head[1..] == []; }
      }
    }
  }

  /** The file the dump writes. */
  datatype WrittenFile = WrittenFile(path: string, text: string)

  datatype ExportRun = ExportRun(file: Option<WrittenFile>, screen: Screen)

  /** `export_database`: with no path chosen nothing happens; when any
      step raises, the error is shown and no dump is reported; otherwise
      the dump text is written to the path and success is shown. The
      raised exception, if any, is an input. */
  function ExportDatabase(s: Screen, chosen: string, c: Catalog, failure: Option<string>): (r: ExportRun)
    ensures chosen == "" ==> r == ExportRun(None, s)
    ensures chosen != "" && failure.Some? ==>
              r == ExportRun(None, Notify(s, ErrorBox, "Error de Exportación", failure.value))
    ensures chosen != "" && failure.None? ==>
              && r.file == Some(WrittenFile(chosen, Export(c)))
              && r.screen == Notify(s, InfoBox, "Exportación Exitosa",
                                    "La base de datos se ha exportado a: " + chosen)
  {
    if chosen == "" then ExportRun(None, s)
    else if failure.Some? then
      ExportRun(None, Notify(s, ErrorBox, "Error de Exportación", failure.value))
    else
      ExportRun(Some(WrittenFile(chosen, Export(c))),
                Notify(s, InfoBox, "Exportación Exitosa",
                       "La base de datos se ha exportado a: " + chosen))
  }
}
