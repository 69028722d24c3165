/** ui/sql_executor.py: which text is run, how it is handed to the engine,
    and where the outcome is shown. The engine is an oracle: for a mode and
    a command it either raises `sqlite3.Error` or yields rows and a
    description. Whether the following commit raises, and what the table
    listing afterwards gives, are inputs too. Nothing here interprets
    SQL beyond the two text tests the code itself makes. */
module SqlExecutor {
  import opened Optional
  import opened Text
  import opened Catalog
  import opened UiBuilder
  import opened UiUpdater
  import opened Connection

  /** `cursor.executescript` versus `cursor.execute`. */
  datatype Mode = Script | Single

  /** What the engine did with a command: raised `sqlite3.Error`, or ran
      it, leaving `fetchall()`'s rows and `cursor.description`'s column
      names (absent when the engine reports no description). In script
      mode only whether it raised is used; see `CursorAfter`. An error that
      `fetchall()` raises after the commit is folded into `Raised`: the
      screen is the same, but the commit is then not among the steps. */
  datatype Reply = Raised(message: string) | Fetched(rows: seq<Row>, description: Option<seq<string>>)

  type Engine = (Mode, string) -> Reply

  /** The calls made on the connection, in order. */
  datatype Step = Execute(mode: Mode, command: string) | Commit

  /** The screen afterwards, the engine calls made, and whether an
      exception other than `sqlite3.Error` escaped the handler. */
  datatype Run = Run(screen: Screen, steps: seq<Step>, escaped: bool)

  const MissingInput := "Please connect to a database and enter an SQL command."
  const Executed := "SQL command executed successfully."

  /** Python truthiness of the optional custom command. */
  predicate Given(custom: Option<string>) {
    custom.Some? && custom.value != ""
  }

  /** The command text: a non-empty custom command as it is, otherwise the
      editor's text stripped of surrounding whitespace. With neither there
      is no text widget to read, and the handler fails (`None`). */
  function ChooseCommand(custom: Option<string>, editor: Option<string>): (r: Option<string>)
    ensures Given(custom) ==> r == custom
    ensures !Given(custom) ==> (r.Some? <==> editor.Some?)
    ensures !Given(custom) && editor.Some? ==> r.value == Strip(editor.value)
  {
    if Given(custom) then custom
    else if editor.Some? then Some(Strip(editor.value))
    else None
  }

  /** A command containing `;` anywhere goes to `executescript`. */
  function ModeFor(command: string): (m: Mode)
    ensures m == Script <==> ';' in command
  {
    if ';' in command then Script else Single
  }

  /** `command.lower().startswith("select")`. Only ASCII letters matter:
      no other character lower-cases to one of the letters of `select`. */
  predicate IsSelect(command: string) {
    |command| >= 6 && forall i :: 0 <= i < 6 ==> LowerAscii(command[i]) == "select"[i]
  }

  /** The test matches the first six characters against `select` letter
      by letter, each letter in either case: `SELECT`, `Select` and
      `sElEcT` all pass, a leading space does not. */
  lemma IsSelectCaseInsensitive(command: string)
    ensures IsSelect(command) <==>
              |command| >= 6 && forall i :: 0 <= i < 6 ==> command[i] == "select"[i] || command[i] == "SELECT"[i]
  {
    if |command| >= 6 {
      forall i | 0 <= i < 6
        ensures LowerAscii(command[i]) == "select"[i] <==> command[i] == "select"[i] || command[i] == "SELECT"[i]
      {
        LowerIs(command[i], "select"[i], "SELECT"[i]);
      }
    }
  }

  /** A character lower-cases to a small letter exactly when it is that
      letter or its capital. */
  lemma LowerIs(c: char, small: char, capital: char)
    requires 'a' <= small <= 'z' && capital as int == small as int - 32
    ensures LowerAscii(c) == small <==> c == small || c == capital
  {
  }

  /** How `display_results` leaves the results table, and whether it
      finished: without a description it fails after clearing the rows. */
  datatype Shown = Shown(view: ResultsView, ok: bool)

  /** `display_results`: every previous row is removed; the columns become
      the description's column names and the rows are inserted in order. */
  function DisplayResults(view: ResultsView, rows: seq<Row>, description: Option<seq<string>>): (r: Shown)
    ensures r.ok <==> description.Some?
    ensures r.ok ==> r.view == ResultsView(description.value, rows)
    ensures !r.ok ==> r.view == ResultsView(view.columns, [])
  {
    match description
    case None => Shown(ResultsView(view.columns, []), false)
    case Some(names) => Shown(ResultsView(names, rows), true)
  }

  /** Nothing of the previous results survives a completed display. */
  lemma DisplayResultsForgetsOld(a: ResultsView, b: ResultsView, rows: seq<Row>, names: seq<string>)
    ensures DisplayResults(a, rows, Some(names)) == DisplayResults(b, rows, Some(names))
  {
  }

  /** What the cursor offers once the engine ran a command without
      raising. `executescript` leaves no current statement behind, so after
      a script there is nothing to fetch and no description, whatever the
      script's last statement was. */
  function CursorAfter(mode: Mode, reply: Reply): (r: Reply)
    requires reply.Fetched?
    ensures r.Fetched?
    ensures mode == Single ==> r == reply
    ensures mode == Script ==> r.rows == [] && r.description.None?
  {
    if mode == Script then Fetched([], None) else reply
  }

  /** The console line and error box for a `sqlite3.Error`. */
  function ReportError(s: Screen, message: string): Screen {
    Notify(AppendToConsole(s, "Error: " + message, "error"), ErrorBox, "SQL Error", message)
  }

  /** The console line after a SELECT: the command and the row count. */
  function SelectSummary(command: string, count: nat): string {
    " " + command + ". Query executed successfully. " + NatToString(count) + " rows returned."
  }

  /** `execute_sql`. */
  function ExecuteSql(s: Screen, conn: Option<Handle>, custom: Option<string>, editor: Option<string>,
                      engine: Engine, commitError: Option<string>, tablesAfter: Listing): (r: Run)
    ensures ChooseCommand(custom, editor).None? ==> r == Run(s, [], true)
    ensures r.steps != [] ==> ChooseCommand(custom, editor).Some? && conn.Some?
    ensures r.steps != [] ==>
              var command := ChooseCommand(custom, editor).value;
              r.steps[0] == Execute(ModeFor(command), command)
    ensures r.steps == [] || |r.steps| == 1 || r.steps[1] == Commit
    ensures |r.steps| <= 2
    ensures r.screen.results != s.results || r.screen.tables != s.tables ==> |r.steps| == 2 && commitError.None?
  {
    match ChooseCommand(custom, editor)
    case None => Run(s, [], true)
    case Some(command) =>
      if command == "" || conn.None? then
        Run(Notify(AppendToConsole(s, MissingInput, "error"), WarningBox, "Warning", MissingInput),
            [], false)
      else
        var mode := ModeFor(command);
        match engine(mode, command)
        case Raised(message) => Run(ReportError(s, message), [Execute(mode, command)], false)
        case Fetched(_, _) =>
          var steps := [Execute(mode, command), Commit];
          var cursor := CursorAfter(mode, engine(mode, command));
          if commitError.Some? then Run(ReportError(s, commitError.value), steps, false)
          else if IsSelect(command) then
            var shown := DisplayResults(s.results, cursor.rows, cursor.description);
            if !shown.ok then Run(s.(results := shown.view), steps, true)
            else
              Run(AppendToConsole(s.(results := shown.view), SelectSummary(command, |cursor.rows|), "success"),
                  steps, false)
          else
            var told := Notify(AppendToConsole(s, Executed, "success"), InfoBox, "Success", Executed);
            match UpdateTablesList(told, conn, tablesAfter)
            case Some(refreshed) => Run(refreshed, steps, false)
            case None => Run(ReportError(told, tablesAfter.message), steps, false)
  }

  /** An empty command or a missing connection runs nothing: one error line
      on the console and one warning box, and nothing else changes. */
  lemma ExecuteSqlRejects(s: Screen, conn: Option<Handle>, custom: Option<string>, editor: Option<string>,
                          engine: Engine, commitError: Option<string>, tablesAfter: Listing)
    requires ChooseCommand(custom, editor).Some?
    requires ChooseCommand(custom, editor).value == "" || conn.None?
    ensures var r := ExecuteSql(s, conn, custom, editor, engine, commitError, tablesAfter);
            && r.steps == [] && !r.escaped
            && r.screen.console == s.console + [Chunk(MissingInput + "\n", ErrorTag)]
            && r.screen.popups == s.popups + [Popup(WarningBox, "Warning", MissingInput)]
            && r.screen.results == s.results && r.screen.tables == s.tables
  {
  }

  /** When the engine raises, there is no commit and no display or
      refresh: only the error line and the error box. */
  lemma ExecuteSqlEngineError(s: Screen, conn: Option<Handle>, custom: Option<string>, editor: Option<string>,
                              engine: Engine, commitError: Option<string>, tablesAfter: Listing)
    requires ChooseCommand(custom, editor).Some?
    requires var command := ChooseCommand(custom, editor).value;
             command != "" && conn.Some? && engine(ModeFor(command), command).Raised?
    ensures var command := ChooseCommand(custom, editor).value;
            var message := engine(ModeFor(command), command).message;
            var r := ExecuteSql(s, conn, custom, editor, engine, commitError, tablesAfter);
            && r.steps == [Execute(ModeFor(command), command)] && !r.escaped
            && r.screen.console == s.console + [Chunk("Error: " + message + "\n", ErrorTag)]
            && r.screen.popups == s.popups + [Popup(ErrorBox, "SQL Error", message)]
            && r.screen.results == s.results && r.screen.tables == s.tables
  {
  }

  /** When the commit raises, the engine has run the command but nothing
      is displayed or refreshed: only the commit's error line and error
      box. */
  lemma ExecuteSqlCommitError(s: Screen, conn: Option<Handle>, custom: Option<string>, editor: Option<string>,
                              engine: Engine, message: string, tablesAfter: Listing)
    requires ChooseCommand(custom, editor).Some?
    requires var command := ChooseCommand(custom, editor).value;
             command != "" && conn.Some? && engine(ModeFor(command), command).Fetched?
    ensures var command := ChooseCommand(custom, editor).value;
            var r := ExecuteSql(s, conn, custom, editor, engine, Some(message), tablesAfter);
            && r.steps == [Execute(ModeFor(command), command), Commit] && !r.escaped
            && r.screen.console == s.console + [Chunk("Error: " + message + "\n", ErrorTag)]
            && r.screen.popups == s.popups + [Popup(ErrorBox, "SQL Error", message)]
            && r.screen.results == s.results && r.screen.tables == s.tables
  {
  }

  /** A successful single-statement SELECT (after the commit) replaces the
      results with the fetched rows under the described columns, logs the
      row count, and leaves the tables list and the message boxes alone. */
  lemma ExecuteSqlSelectRoute(s: Screen, conn: Option<Handle>, custom: Option<string>, editor: Option<string>,
                              engine: Engine, tablesAfter: Listing)
    requires ChooseCommand(custom, editor).Some?
    requires var command := ChooseCommand(custom, editor).value;
             && command != "" && conn.Some? && IsSelect(command) && ';' !in command
             && engine(Single, command).Fetched?
             && engine(Single, command).description.Some?
    ensures var command := ChooseCommand(custom, editor).value;
            var reply := engine(Single, command);
            var r := ExecuteSql(s, conn, custom, editor, engine, None, tablesAfter);
            && r.steps == [Execute(Single, command), Commit] && !r.escaped
            && r.screen.results == ResultsView(reply.description.value, reply.rows)
            && r.screen.console == s.console + [Chunk(SelectSummary(command, |reply.rows|) + "\n", SuccessTag)]
            && r.screen.tables == s.tables && r.screen.popups == s.popups
  {
  }

  /** A SELECT that contains `;` goes to `executescript` and never shows
      anything: the column headings stay and no row appears. Unless the
      engine or the commit raised, the results are cleared and the handler
      escapes, since the cursor has no description. */
  lemma ExecuteSqlScriptSelect(s: Screen, conn: Option<Handle>, custom: Option<string>, editor: Option<string>,
                               engine: Engine, commitError: Option<string>, tablesAfter: Listing)
    requires ChooseCommand(custom, editor).Some?
    requires var command := ChooseCommand(custom, editor).value;
             command != "" && conn.Some? && IsSelect(command) && ';' in command
    ensures var command := ChooseCommand(custom, editor).value;
            var r := ExecuteSql(s, conn, custom, editor, engine, commitError, tablesAfter);
            && r.screen.results.columns == s.results.columns
            && (r.screen.results.rows == [] || r.screen.results == s.results)
            && r.screen.tables == s.tables
            && (r.escaped <==> engine(Script, command).Fetched? && commitError.None?)
  {
  }

  /** A successful command that is not a SELECT (after the commit) logs and
      shows the success message and refreshes the tables list with the
      engine's table names; the results are left alone. */
  lemma ExecuteSqlOtherRoute(s: Screen, conn: Option<Handle>, custom: Option<string>, editor: Option<string>,
                             engine: Engine, names: seq<string>)
    requires ChooseCommand(custom, editor).Some?
    requires var command := ChooseCommand(custom, editor).value;
             && command != "" && conn.Some? && !IsSelect(command)
             && engine(ModeFor(command), command).Fetched?
    ensures var command := ChooseCommand(custom, editor).value;
            var r := ExecuteSql(s, conn, custom, editor, engine, None, Listed(names));
            && r.steps == [Execute(ModeFor(command), command), Commit] && !r.escaped
            && r.screen.results == s.results
            && r.screen.tables == names
            && r.screen.console == s.console + [Chunk(Executed + "\n", SuccessTag)]
            && r.screen.popups == s.popups + [Popup(InfoBox, "Success", Executed)]
  {
  }

  /** When the refresh after a command that is not a SELECT raises, the
      success line and box are already shown; the error line and the
      "SQL Error" box follow them, and the tables list keeps its names. */
  lemma ExecuteSqlRefreshError(s: Screen, conn: Option<Handle>, custom: Option<string>, editor: Option<string>,
                               engine: Engine, message: string)
    requires ChooseCommand(custom, editor).Some?
    requires var command := ChooseCommand(custom, editor).value;
             && command != "" && conn.Some? && !IsSelect(command)
             && engine(ModeFor(command), command).Fetched?
    ensures var command := ChooseCommand(custom, editor).value;
            var r := ExecuteSql(s, conn, custom, editor, engine, None, ListFailed(message));
            && r.steps == [Execute(ModeFor(command), command), Commit] && !r.escaped
            && r.screen.results == s.results && r.screen.tables == s.tables
            && r.screen.console == s.console + [Chunk(Executed + "\n", SuccessTag),
                                                Chunk("Error: " + message + "\n", ErrorTag)]
            && r.screen.popups == s.popups + [Popup(InfoBox, "Success", Executed),
                                              Popup(ErrorBox, "SQL Error", message)]
  {
  }

  /** A SELECT whose run leaves no description (always the case for a
      script) clears the results table and then fails inside
      `display_results` with an exception the handler does not catch: no
      console line, no message box. */
  lemma ExecuteSqlSelectWithoutDescription(s: Screen, conn: Option<Handle>, custom: Option<string>,
                                           editor: Option<string>, engine: Engine, tablesAfter: Listing)
    requires ChooseCommand(custom, editor).Some?
    requires var command := ChooseCommand(custom, editor).value;
             && command != "" && conn.Some? && IsSelect(command)
             && engine(ModeFor(command), command).Fetched?
             && (';' in command || engine(ModeFor(command), command).description.None?)
    ensures var r := ExecuteSql(s, conn, custom, editor, engine, None, tablesAfter);
            && r.escaped && |r.steps| == 2
            && r.screen == s.(results := ResultsView(s.results.columns, []))
  {
  }

  /** The query the table shortcut runs. */
  function TableQuery(name: string): string {
    "SELECT * FROM " + name
  }

  datatype Selection = Selection(screen: Screen, command: Option<string>)

  /** `on_table_select`: without a selected table nothing happens;
      otherwise the query is echoed to the console and handed on to run.
      The window binds its list box to its own handler (`App.OnTableSelect`),
      which does not echo, so this echo is never seen there. */
  function OnTableSelect(s: Screen, selected: Option<string>): (r: Selection)
    ensures selected.None? ==> r == Selection(s, None)
    ensures selected.Some? ==>
              && r.command == Some(TableQuery(selected.value))
              && r.screen == AppendToConsole(s, "Executing: " + TableQuery(selected.value), "info")
  {
    match selected
    case None => Selection(s, None)
    case Some(name) =>
      var command := TableQuery(name);
      Selection(AppendToConsole(s, "Executing: " + command, "info"), Some(command))
  }

  /** The table shortcut's query always counts as a SELECT, and it goes
      to `executescript` exactly when the table name contains `;`. */
  lemma TableQueryRoute(name: string)
    ensures IsSelect(TableQuery(name))
    ensures ModeFor(TableQuery(name)) == Script <==> ';' in name
  {
    var q := TableQuery(name);
    assert q[..14] == "SELECT * FROM ";
    assert ';' in q <==> ';' in name by {
      assert q == "SELECT * FROM " + name;
      if ';' in name {
        var i :| 0 <= i < |name| && name[i] == ';';
        assert q[14 + i] == ';';
      }
    }
  }
}
