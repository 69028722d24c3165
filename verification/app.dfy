/** `TsukiSQLApp` (main.py): the window's state and its event handlers,
    wired to the database manager, the editor tabs, the SQL executor, the
    exporter and the diagram generator. Dialog answers, file contents,
    the database's catalog and the engine's replies arrive with the events
    as inputs. */
module App {
  import opened Optional
  import opened Text
  import opened Dict
  import opened Catalog
  import opened UiBuilder
  import opened UiUpdater
  import opened EditorTabs
  import Connection
  import SqlExecutor
  import Exporter
  import Erd

  /** The window: `db_connection` and `db_path` as the application keeps
      them, the `DatabaseManager`, the tools menu, the database label, the
      console, results, tables list and message boxes, the editor tabs,
      and the text in each editor. */
  datatype App = App(
    conn: Option<Connection.Handle>,
    path: Option<string>,
    manager: Connection.Manager,
    tools: Tools,
    dbLabel: string,
    screen: Screen,
    editors: Registry,
    buffers: map<Widget, string>)

  /** What a handler did outside the window: a file written, a diagram
      handed to Graphviz, or the calls made on the connection. */
  datatype Effect =
    | NoEffect
    | Wrote(file: Exporter.WrittenFile)
    | Rendered(diagram: Erd.Diagram)
    | Ran(steps: seq<SqlExecutor.Step>)

  /** The window after a handler, its effect, and whether an exception
      escaped the handler (Tk reports it and the window carries on). */
  datatype Outcome = Outcome(app: App, effect: Effect, escaped: bool)

  /** What reading the chosen file gave: its text, or the exception's
      message. */
  datatype ReadResult = Read(content: string) | ReadFailed(message: string)

  /** The text of an editor; a widget with no recorded text is empty. */
  function BufferText(a: App, w: Widget): string {
    if w in a.buffers then a.buffers[w] else ""
  }

  /** `TsukiSQLApp.__init__`: no connection, both tools disabled, the
      label saying so, and one unnamed editor. */
  function Init(): (a: App)
    ensures Inv(a)
    ensures a.conn.None? && a.path.None? && a.manager == Connection.Initial
    ensures a.tools == InitialTools && a.dbLabel == NoDatabase
    ensures a.screen == Blank
    ensures |a.editors.editors| == 1 && a.editors.editors[0].0 == AutoName(1)
  {
    FirstEditor();
    InitialEditorReady();
    App(None, None, Connection.Initial, InitialTools, NoDatabase, Blank,
        CreateSqlEditor(Empty, None).registry, map[Widget(0) := ""])
  }

  /** The line `connect_db` logs after a successful connect. */
  function ConnectedLine(path: string): string {
    "Conectado a la base de datos: " + path
  }

  /** The window once the manager reports a successful connect or
      create, before the tables list is refreshed: the new handle and path,
      the label showing the path, both tools enabled, and the manager's
      message box shown. */
  function Attach(a: App, m: Connection.Manager, reply: Connection.Reply, popups: seq<Popup>): App
  {
    a.(conn := reply.conn, path := reply.path, manager := m, dbLabel := DbLabel(reply.path),
       tools := UpdateToolsMenuState(true), screen := a.screen.(popups := a.screen.popups + popups))
  }

  /** `connect_db`: on success the handle and path are taken over from the
      manager, the label and tools follow, the tables list is refreshed and
      the connect is logged; otherwise only the manager's message box (if
      any) shows. A file that is not a database opens without complaint,
      and the refresh's query raises: the exception leaves the handler with
      handle, path, label and tools already set, the old tables list and no
      console line. */
  function ConnectDb(a: App, chosen: string, opening: Connection.Opening, listing: Listing): (o: Outcome)
    ensures o.effect == NoEffect
    ensures var at := Connection.ConnectDb(a.manager, chosen, opening);
            o.escaped <==> at.reply.ok && listing.ListFailed?
    ensures var at := Connection.ConnectDb(a.manager, chosen, opening);
            at.reply.ok ==>
              && o.app.conn == Some(opening.handle) && o.app.path == Some(chosen) && o.app.manager == at.manager
              && o.app.tools == Tools(Normal, Normal)
              && o.app.dbLabel == ConnectedPrefix + chosen
              && o.app.editors == a.editors && o.app.buffers == a.buffers
              && o.app.screen.results == a.screen.results
              && o.app.screen.popups == a.screen.popups + at.popups
    ensures var at := Connection.ConnectDb(a.manager, chosen, opening);
            at.reply.ok && listing.Listed? ==>
              && o.app.screen.tables == listing.names
              && o.app.screen.console == a.screen.console + [Chunk(ConnectedLine(chosen) + "\n", SuccessTag)]
    ensures var at := Connection.ConnectDb(a.manager, chosen, opening);
            at.reply.ok && listing.ListFailed? ==>
              o.app.screen.tables == a.screen.tables && o.app.screen.console == a.screen.console
    ensures var at := Connection.ConnectDb(a.manager, chosen, opening);
            !at.reply.ok ==> o.app == a.(screen := a.screen.(popups := a.screen.popups + at.popups))
  {
    var at := Connection.ConnectDb(a.manager, chosen, opening);
    if !at.reply.ok then
      Outcome(a.(manager := at.manager, screen := a.screen.(popups := a.screen.popups + at.popups)), NoEffect, false)
    else
      var b := Attach(a, at.manager, at.reply, at.popups);
      match UpdateTablesList(b.screen, b.conn, listing)
      case None => Outcome(b, NoEffect, true)
      case Some(listed) => Outcome(b.(screen := AppendToConsole(listed, ConnectedLine(chosen), "success")), NoEffect, false)
  }

  /** `create_new_db`: like `connect_db`, without the console line. */
  function CreateNewDb(a: App, chosen: string, opening: Connection.Opening, listing: Listing): (o: Outcome)
    ensures o.effect == NoEffect
    ensures var at := Connection.CreateNewDb(a.manager, chosen, opening);
            o.escaped <==> at.reply.ok && listing.ListFailed?
    ensures var at := Connection.CreateNewDb(a.manager, chosen, opening);
            at.reply.ok ==>
              && o.app.conn == Some(opening.handle) && o.app.path == Some(chosen) && o.app.manager == at.manager
              && o.app.tools == Tools(Normal, Normal)
              && o.app.dbLabel == ConnectedPrefix + chosen
              && o.app.editors == a.editors && o.app.buffers == a.buffers
              && o.app.screen.results == a.screen.results
              && o.app.screen.popups == a.screen.popups + at.popups
              && o.app.screen.console == a.screen.console
    ensures var at := Connection.CreateNewDb(a.manager, chosen, opening);
            at.reply.ok ==>
              o.app.screen.tables == (if listing.Listed? then listing.names else a.screen.tables)
    ensures var at := Connection.CreateNewDb(a.manager, chosen, opening);
            !at.reply.ok ==> o.app == a.(screen := a.screen.(popups := a.screen.popups + at.popups))
  {
    var at := Connection.CreateNewDb(a.manager, chosen, opening);
    if !at.reply.ok then
      Outcome(a.(manager := at.manager, screen := a.screen.(popups := a.screen.popups + at.popups)), NoEffect, false)
    else
      var b := Attach(a, at.manager, at.reply, at.popups);
      match UpdateTablesList(b.screen, b.conn, listing)
      case None => Outcome(b, NoEffect, true)
      case Some(listed) => Outcome(b.(screen := listed), NoEffect, false)
  }

  /** The line `disconnect_db` logs. */
  const DisconnectedLine := "Desconectado de la base de datos"

  /** `disconnect_db`: when the manager had a connection, everything about
      it is cleared (handle, path, label, tools, tables list) and the
      disconnect is logged; otherwise nothing changes. */
  function DisconnectDb(a: App): (r: App)
    ensures a.manager.conn.Some? ==>
              && r.conn.None? && r.path.None? && r.manager == Connection.Initial
              && r.tools == InitialTools && r.dbLabel == NoDatabase
              && r.screen.tables == []
              && r.screen.console == a.screen.console + [Chunk(DisconnectedLine + "\n", InfoTag)]
              && r.screen.popups == a.screen.popups + Connection.DisconnectDb(a.manager).popups
              && r.screen.results == a.screen.results
              && r.editors == a.editors && r.buffers == a.buffers
    ensures a.manager.conn.None? ==> r == a
  {
    var d := Connection.DisconnectDb(a.manager);
    if !d.ok then a
    else
      var s := a.screen.(popups := a.screen.popups + d.popups, tables := []);
      TagForName(InfoTag);
      a.(conn := None, path := None, manager := d.manager, dbLabel := DbLabel(None),
         tools := UpdateToolsMenuState(false),
         screen := AppendToConsole(s, DisconnectedLine, "info"))
  }

  const NothingToExport := "No hay base de datos conectada para exportar."

  /** `export_database_wrapper`: without a connection, a warning; with one,
      the export dialog and dump. */
  function ExportDatabaseWrapper(a: App, chosen: string, c: Catalog, failure: Option<string>): (o: Outcome)
    ensures a.conn.None? ==>
              o == Outcome(a.(screen := Notify(a.screen, WarningBox, "Advertencia", NothingToExport)),
                           NoEffect, false)
    ensures a.conn.Some? && chosen != "" && failure.None? ==>
              o.effect == Wrote(Exporter.WrittenFile(chosen, Exporter.Export(c)))
    ensures o.effect.Wrote? ==> a.conn.Some? && o.effect.file.path == chosen
    ensures o.effect.NoEffect? || o.effect.Wrote?
    ensures !o.escaped && o.app.editors == a.editors && o.app.conn == a.conn
  {
    if a.conn.None? then
      Outcome(a.(screen := Notify(a.screen, WarningBox, "Advertencia", NothingToExport)), NoEffect, false)
    else
      var run := Exporter.ExportDatabase(a.screen, chosen, c, failure);
      Outcome(a.(screen := run.screen), if run.file.Some? then Wrote(run.file.value) else NoEffect, false)
  }

  /** `generate_erd`: the save dialog, then the diagram of the catalog.
      The generator asks the connection for a cursor first, so without one
      it fails before building anything. With one, its `PRAGMA` queries
      splice each table name in unquoted, so a name the engine cannot read
      that way (one with a space, or a keyword such as `order`) makes a
      query raise; so does a failed Graphviz run. Nothing catches either.
      Whether something raised is the input `failure`. */
  function GenerateErd(a: App, chosen: string, c: Catalog, failure: Option<string>): (o: Outcome)
    ensures o.app == a
    ensures o.effect.NoEffect? || o.effect.Rendered?
    ensures o.escaped <==> chosen != "" && (a.conn.None? || failure.Some?)
    ensures o.effect.Rendered? <==> chosen != "" && a.conn.Some? && failure.None?
    ensures o.effect.Rendered? ==> Some(o.effect.diagram) == Erd.GenerateErdDialog(chosen, c)
  {
    match Erd.GenerateErdDialog(chosen, c)
    case None => Outcome(a, NoEffect, false)
    case Some(diagram) =>
      if a.conn.None? || failure.Some? then Outcome(a, NoEffect, true) else Outcome(a, Rendered(diagram), false)
  }

  /** The SQL executor's run, taken back into the window. */
  function Absorb(a: App, run: SqlExecutor.Run): (o: Outcome)
    ensures o.app == a.(screen := run.screen) && o.escaped == run.escaped
    ensures o.effect == Ran(run.steps)
  {
    Outcome(a.(screen := run.screen), Ran(run.steps), run.escaped)
  }

  /** `execute_sql` (the button): run the current editor's
      text; `get("1.0", END)` hands it over with Tk's trailing newline. */
  function ExecuteSql(a: App, engine: SqlExecutor.Engine, commitError: Option<string>,
                      tablesAfter: Listing): (o: Outcome)
    ensures GetCurrentEditor(a.editors).None? ==>
              o == Outcome(a.(screen := Notify(a.screen, WarningBox, "Advertencia", "No hay editor activo")),
                           NoEffect, false)
    ensures GetCurrentEditor(a.editors).Some? ==>
              var text := BufferText(a, GetCurrentEditor(a.editors).value) + "\n";
              o == Absorb(a, SqlExecutor.ExecuteSql(a.screen, a.conn, None, Some(text), engine, commitError,
                                                    tablesAfter))
  {
    match GetCurrentEditor(a.editors)
    case None =>
      Outcome(a.(screen := Notify(a.screen, WarningBox, "Advertencia", "No hay editor activo")), NoEffect, false)
    case Some(w) =>
      Absorb(a, SqlExecutor.ExecuteSql(a.screen, a.conn, None, Some(BufferText(a, w) + "\n"), engine,
                                       commitError, tablesAfter))
  }

  /** `execute_sql_in_console`: run the given command, only when connected. */
  function ExecuteSqlInConsole(a: App, command: string, engine: SqlExecutor.Engine,
                               commitError: Option<string>, tablesAfter: Listing): (o: Outcome)
    ensures a.conn.None? ==> o == Outcome(a, NoEffect, false)
    ensures a.conn.Some? ==>
              o == Absorb(a, SqlExecutor.ExecuteSql(a.screen, a.conn, Some(command), None, engine, commitError,
                                                    tablesAfter))
  {
    if a.conn.None? then Outcome(a, NoEffect, false)
    else Absorb(a, SqlExecutor.ExecuteSql(a.screen, a.conn, Some(command), None, engine, commitError, tablesAfter))
  }

  /** The name at a position of the tables list, if there is a line there.
      The list box reports only positions of existing lines. */
  function TableAt(a: App, selection: Option<nat>): (r: Option<string>)
    ensures r.Some? <==> selection.Some? && selection.value < |a.screen.tables|
    ensures r.Some? ==> r.value == a.screen.tables[selection.value]
  {
    if selection.Some? && selection.value < |a.screen.tables| then Some(a.screen.tables[selection.value])
    else None
  }

  /** `on_table_select`: a click on a table runs `SELECT * FROM` it through
      the console path. */
  function OnTableSelect(a: App, selection: Option<nat>, engine: SqlExecutor.Engine,
                         commitError: Option<string>, tablesAfter: Listing): (o: Outcome)
    ensures TableAt(a, selection).None? ==> o == Outcome(a, NoEffect, false)
    ensures TableAt(a, selection).Some? ==>
              o == ExecuteSqlInConsole(a, SqlExecutor.TableQuery(TableAt(a, selection).value), engine,
                                       commitError, tablesAfter)
  {
    match TableAt(a, selection)
    case None => Outcome(a, NoEffect, false)
    case Some(name) => ExecuteSqlInConsole(a, SqlExecutor.TableQuery(name), engine, commitError, tablesAfter)
  }

  /** `create_new_editor`: a fresh unnamed editor, empty. */
  function NewEditor(a: App): (r: App)
    ensures var c := CreateSqlEditor(a.editors, None);
            r.editors == c.registry && BufferText(r, c.widget) == ""
    ensures r.conn == a.conn && r.screen == a.screen && r.tools == a.tools
  {
    var c := CreateSqlEditor(a.editors, None);
    a.(editors := c.registry, buffers := a.buffers[c.widget := ""])
  }

  /** `open_sql_file`: a cancelled dialog does nothing; a failed read is
      reported on the console and in an error box; otherwise a new editor
      holds the file's text, its tab shows the last segment of the path,
      and the opening is logged. */
  function OpenSqlFile(a: App, chosen: string, read: ReadResult): (r: App)
    ensures chosen == "" ==> r == a
    ensures chosen != "" && read.ReadFailed? ==>
              var message := "Error al abrir el archivo: " + read.message;
              && r.editors == a.editors
              && r.screen == Notify(AppendToConsole(a.screen, message, "error"), ErrorBox, "Error", message)
    ensures chosen != "" && read.Read? ==>
              var c := CreateSqlEditor(a.editors, None);
              && r.editors == RenameSelected(c.registry, LastSegment(chosen))
              && r.editors.selected == Some(|a.editors.tabs|)
              && r.editors.tabs[|a.editors.tabs|] == (c.widget, LastSegment(chosen))
              && GetCurrentEditor(r.editors) == Some(c.widget)
              && BufferText(r, c.widget) == read.content
              && r.screen == AppendToConsole(a.screen, "Archivo SQL abierto: " + LastSegment(chosen), "info")
  {
    if chosen == "" then a
    else match read
      case ReadFailed(m) =>
        var message := "Error al abrir el archivo: " + m;
        a.(screen := Notify(AppendToConsole(a.screen, message, "error"), ErrorBox, "Error", message))
      case Read(content) =>
        var c := CreateSqlEditor(a.editors, None);
        var name := LastSegment(chosen);
        var renamed := RenameSelected(c.registry, name);
        assert renamed.tabs[|a.editors.tabs|] == (c.widget, name);
        a.(editors := renamed, buffers := a.buffers[c.widget := content],
           screen := AppendToConsole(a.screen, "Archivo SQL abierto: " + name, "info"))
  }

  /** `save_sql_file`: with no current editor, a warning; a cancelled
      dialog does nothing; a failed write shows an error; otherwise the
      editor's text (with Tk's trailing newline) is written, the tab shows
      the file's name, and success is reported. */
  function SaveSqlFile(a: App, chosen: string, failure: Option<string>): (o: Outcome)
    ensures GetCurrentEditor(a.editors).None? ==>
              o == Outcome(a.(screen := Notify(a.screen, WarningBox, "Advertencia",
                                               "No hay editor activo para guardar")), NoEffect, false)
    ensures GetCurrentEditor(a.editors).Some? && chosen == "" ==> o == Outcome(a, NoEffect, false)
    ensures GetCurrentEditor(a.editors).Some? && chosen != "" && failure.Some? ==>
              o == Outcome(a.(screen := Notify(a.screen, ErrorBox, "Error",
                                               "Error al guardar el archivo: " + failure.value)), NoEffect, false)
    ensures GetCurrentEditor(a.editors).Some? && chosen != "" && failure.None? ==>
              && o.effect == Wrote(Exporter.WrittenFile(chosen,
                                   BufferText(a, GetCurrentEditor(a.editors).value) + "\n"))
              && o.app.editors == RenameSelected(a.editors, LastSegment(chosen))
              && o.app.screen == Notify(a.screen, InfoBox, "Éxito", "Archivo guardado correctamente")
    ensures !o.escaped && o.app.conn == a.conn && o.app.tools == a.tools
  {
    match GetCurrentEditor(a.editors)
    case None =>
      Outcome(a.(screen := Notify(a.screen, WarningBox, "Advertencia", "No hay editor activo para guardar")),
              NoEffect, false)
    case Some(w) =>
      if chosen == "" then Outcome(a, NoEffect, false)
      else if failure.Some? then
        Outcome(a.(screen := Notify(a.screen, ErrorBox, "Error", "Error al guardar el archivo: " + failure.value)),
                NoEffect, false)
      else
        Outcome(a.(editors := RenameSelected(a.editors, LastSegment(chosen)),
                   screen := Notify(a.screen, InfoBox, "Éxito", "Archivo guardado correctamente")),
                Wrote(Exporter.WrittenFile(chosen, BufferText(a, w) + "\n")), false)
  }

  /** The user's typing. Keystrokes reach the text widget with the focus,
      which is the editor of the tab on display; its text becomes `text`.
      That editor need not be `sql_text`, which Execute and Save use. */
  function TypeText(a: App, text: string): (r: App)
    ensures DisplayedEditor(a.editors).Some? ==> BufferText(r, DisplayedEditor(a.editors).value) == text
    ensures forall w :: Some(w) != DisplayedEditor(a.editors) ==> BufferText(r, w) == BufferText(a, w)
    ensures DisplayedEditor(a.editors).None? ==> r == a
    ensures r.editors == a.editors && r.screen == a.screen && r.conn == a.conn && r.tools == a.tools
  {
    match DisplayedEditor(a.editors)
    case None => a
    case Some(w) => a.(buffers := a.buffers[w := text])
  }

  /** What holds between any two events: the application and the manager
      agree on the connection; a path is held exactly with a connection and
      is never empty; both tools are enabled exactly when connected; the
      label shows the path; the tables list is empty when disconnected; and
      the editor tabs are ready. */
  ghost predicate Inv(a: App) {
    && a.conn == a.manager.conn && a.path == a.manager.path
    && (a.conn.Some? <==> a.path.Some?)
    && (a.path.Some? ==> a.path.value != "")
    && a.tools == UpdateToolsMenuState(a.conn.Some?)
    && a.dbLabel == DbLabel(a.path)
    && (a.conn.None? ==> a.screen.tables == [])
    && Ready(a.editors)
  }

  /** The events of the window. `RunConsole` allows any command, though
      the window itself only ever sends the tables list's query. */
  datatype Event =
    | Connect(chosen: string, opening: Connection.Opening, listing: Listing)
    | CreateDb(chosen: string, opening: Connection.Opening, listing: Listing)
    | Disconnect
    | ExportDb(exportPath: string, catalog: Catalog, failure: Option<string>)
    | DrawErd(erdPath: string, erdCatalog: Catalog, erdFailure: Option<string>)
    | RunEditor(engine: SqlExecutor.Engine, commitError: Option<string>, tablesAfter: Listing)
    | RunConsole(command: string, consoleEngine: SqlExecutor.Engine, consoleCommitError: Option<string>,
                 consoleTables: Listing)
    | ClickTable(selection: Option<nat>, clickEngine: SqlExecutor.Engine, clickCommitError: Option<string>,
                 clickTables: Listing)
    | NewTab
    | OpenFile(openPath: string, read: ReadResult)
    | SaveFile(savePath: string, saveFailure: Option<string>)
    | CloseButton(name: string)
    | CloseCurrent
    | Type(text: string)
    | ClickTab(tab: nat)

  /** Runs one event's handler. Only connecting and creating (through the
      tables refresh), the diagram and the SQL handlers can end in an
      escaped exception (closing never raises on the registry the window
      keeps), only exporting and saving write files, and only the SQL
      handlers call the engine. */
  function Dispatch(a: App, e: Event): (o: Outcome)
    requires Inv(a)
    ensures o.escaped ==> e.Connect? || e.CreateDb? || e.DrawErd? || e.RunEditor? || e.RunConsole? || e.ClickTable?
    ensures o.effect.Wrote? ==> e.ExportDb? || e.SaveFile?
    ensures o.effect.Rendered? ==> e.DrawErd?
    ensures o.effect.Ran? ==> e.RunEditor? || e.RunConsole? || e.ClickTable?
  {
    match e
    case Connect(chosen, opening, listing) => ConnectDb(a, chosen, opening, listing)
    case CreateDb(chosen, opening, listing) => CreateNewDb(a, chosen, opening, listing)
    case Disconnect => Outcome(DisconnectDb(a), NoEffect, false)
    case ExportDb(chosen, c, failure) => ExportDatabaseWrapper(a, chosen, c, failure)
    case DrawErd(chosen, c, failure) => GenerateErd(a, chosen, c, failure)
    case RunEditor(engine, commitError, tablesAfter) => ExecuteSql(a, engine, commitError, tablesAfter)
    case RunConsole(command, engine, commitError, tablesAfter) =>
      ExecuteSqlInConsole(a, command, engine, commitError, tablesAfter)
    case ClickTable(selection, engine, commitError, tablesAfter) =>
      OnTableSelect(a, selection, engine, commitError, tablesAfter)
    case NewTab => Outcome(NewEditor(a), NoEffect, false)
    case OpenFile(chosen, read) => Outcome(OpenSqlFile(a, chosen, read), NoEffect, false)
    case SaveFile(chosen, failure) => SaveSqlFile(a, chosen, failure)
    case CloseButton(name) =>
      var c := CloseEditor(a.editors, name);
      CloseKeepsReady(a.editors, name);
      Outcome(a.(editors := c.registry), NoEffect, c.raised)
    case CloseCurrent =>
      var c := CloseCurrentEditor(a.editors);
      CloseCurrentNeverRaises(a.editors);
      Outcome(a.(editors := c.registry), NoEffect, c.raised)
    case Type(text) => Outcome(TypeText(a, text), NoEffect, false)
    case ClickTab(i) => Outcome(a.(editors := SelectTab(a.editors, i)), NoEffect, false)
  }

  /** Ctrl-W never raises on a ready registry. */
  lemma CloseCurrentNeverRaises(r: Registry)
    requires Ready(r)
    ensures !CloseCurrentEditor(r).raised
  {
    if r.selected.Some? {
      CloseKeepsReady(r, r.tabs[r.selected.value].1);
    }
  }

  /** Every handler keeps the invariant. */
  lemma DispatchKeepsInv(a: App, e: Event)
    requires Inv(a)
    ensures Inv(Dispatch(a, e).app)
  {
    if e.Connect? || e.CreateDb? || e.Disconnect? {
      ConnectionEventKeepsInv(a, e);
    } else if e.ExportDb? || e.DrawErd? {
      ToolEventKeepsInv(a, e);
    } else if e.RunEditor? || e.RunConsole? || e.ClickTable? {
      RunEventKeepsInv(a, e);
    } else if e.NewTab? || e.OpenFile? || e.Type? || e.ClickTab? {
      EditEventKeepsInv(a, e);
    } else {
      CloseEventKeepsInv(a, e);
    }
  }

  /** Connecting, creating and disconnecting keep the invariant. */
  lemma ConnectionEventKeepsInv(a: App, e: Event)
    requires Inv(a) && (e.Connect? || e.CreateDb? || e.Disconnect?)
    ensures Inv(Dispatch(a, e).app)
  {
    match e
    case Connect(chosen, opening, listing) => ConnectKeepsInv(a, chosen, opening, listing);
    case CreateDb(chosen, opening, listing) => ConnectKeepsInv(a, chosen, opening, listing);
    case Disconnect => DisconnectKeepsInv(a);
  }

  /** The two tools keep the invariant. */
  lemma ToolEventKeepsInv(a: App, e: Event)
    requires Inv(a) && (e.ExportDb? || e.DrawErd?)
    ensures Inv(Dispatch(a, e).app)
  {
    match e
    case ExportDb(chosen, c, failure) => ExportKeepsInv(a, chosen, c, failure);
    case DrawErd(chosen, c, failure) =>
  }

  /** Running SQL from the editor, the console or the tables list keeps
      the invariant. */
  lemma RunEventKeepsInv(a: App, e: Event)
    requires Inv(a) && (e.RunEditor? || e.RunConsole? || e.ClickTable?)
    ensures Inv(Dispatch(a, e).app)
  {
    match e
    case RunEditor(engine, commitError, tablesAfter) => RunKeepsInv(a, engine, commitError, tablesAfter);
    case RunConsole(command, engine, commitError, tablesAfter) =>
      ConsoleKeepsInv(a, command, engine, commitError, tablesAfter);
    case ClickTable(selection, engine, commitError, tablesAfter) =>
      ClickKeepsInv(a, selection, engine, commitError, tablesAfter);
  }

  /** A new editor, an opened file, typing and a tab click keep the
      invariant. */
  lemma EditEventKeepsInv(a: App, e: Event)
    requires Inv(a) && (e.NewTab? || e.OpenFile? || e.Type? || e.ClickTab?)
    ensures Inv(Dispatch(a, e).app)
  {
    match e
    case NewTab => NewEditorKeepsInv(a);
    case OpenFile(chosen, read) => OpenKeepsInv(a, chosen, read);
    case Type(text) => TypeKeepsInv(a, text);
    case ClickTab(i) => ClickTabKeepsInv(a, i);
  }

  /** The handler of a tab click: only the selection moves. */
  lemma DispatchClickTab(a: App, i: nat)
    requires Inv(a)
    ensures Dispatch(a, ClickTab(i)) == Outcome(a.(editors := SelectTab(a.editors, i)), NoEffect, false)
  {
  }

  /** A click on a tab keeps the invariant: the registry stays ready even
      though `sql_text` may no longer be the selected tab's editor. */
  lemma ClickTabKeepsInv(a: App, i: nat)
    requires Inv(a)
    ensures Inv(a.(editors := SelectTab(a.editors, i)))
  {
  }

  /** Saving and both ways of closing keep the invariant. */
  lemma CloseEventKeepsInv(a: App, e: Event)
    requires Inv(a) && (e.SaveFile? || e.CloseButton? || e.CloseCurrent?)
    ensures Inv(Dispatch(a, e).app)
  {
    match e
    case SaveFile(chosen, failure) => SaveKeepsInv(a, chosen, failure);
    case CloseButton(name) => CloseKeepsInv(a, name);
    case CloseCurrent => CloseCurrentKeepsInv(a);
  }

  /** Disconnecting keeps the invariant. */
  lemma DisconnectKeepsInv(a: App)
    requires Inv(a)
    ensures Inv(DisconnectDb(a))
  {
  }

  /** Exporting keeps the invariant. */
  lemma ExportKeepsInv(a: App, chosen: string, c: Catalog, failure: Option<string>)
    requires Inv(a)
    ensures Inv(ExportDatabaseWrapper(a, chosen, c, failure).app)
  {
  }

  /** Running a console command keeps the invariant. */
  lemma ConsoleKeepsInv(a: App, command: string, engine: SqlExecutor.Engine, commitError: Option<string>,
                        tablesAfter: Listing)
    requires Inv(a)
    ensures Inv(ExecuteSqlInConsole(a, command, engine, commitError, tablesAfter).app)
  {
  }

  /** A click in the tables list keeps the invariant. */
  lemma ClickKeepsInv(a: App, selection: Option<nat>, engine: SqlExecutor.Engine, commitError: Option<string>,
                      tablesAfter: Listing)
    requires Inv(a)
    ensures Inv(OnTableSelect(a, selection, engine, commitError, tablesAfter).app)
  {
    if TableAt(a, selection).Some? {
      ConsoleKeepsInv(a, SqlExecutor.TableQuery(TableAt(a, selection).value), engine, commitError, tablesAfter);
    }
  }

  /** Typing keeps the invariant. */
  lemma TypeKeepsInv(a: App, text: string)
    requires Inv(a)
    ensures Inv(TypeText(a, text))
  {
  }

  /** A new editor keeps the invariant. */
  lemma NewEditorKeepsInv(a: App)
    requires Inv(a)
    ensures Inv(NewEditor(a))
  {
    CreateKeepsReady(a.editors);
  }

  /** Saving keeps the invariant. */
  lemma SaveKeepsInv(a: App, chosen: string, failure: Option<string>)
    requires Inv(a)
    ensures Inv(SaveSqlFile(a, chosen, failure).app)
  {
    RenameKeepsReady(a.editors, LastSegment(chosen));
  }

  /** The close button keeps the invariant. */
  lemma CloseKeepsInv(a: App, name: string)
    requires Inv(a)
    ensures Inv(a.(editors := CloseEditor(a.editors, name).registry))
  {
    CloseKeepsReady(a.editors, name);
  }

  /** Ctrl-W keeps the invariant. */
  lemma CloseCurrentKeepsInv(a: App)
    requires Inv(a)
    ensures Inv(a.(editors := CloseCurrentEditor(a.editors).registry))
  {
    if a.editors.selected.Some? {
      CloseKeepsInv(a, a.editors.tabs[a.editors.selected.value].1);
    }
  }

  /** Connecting or creating keeps the invariant, whether it succeeds,
      fails or escapes in the tables refresh. */
  lemma ConnectKeepsInv(a: App, chosen: string, opening: Connection.Opening, listing: Listing)
    requires Inv(a)
    ensures Inv(ConnectDb(a, chosen, opening, listing).app)
    ensures Inv(CreateNewDb(a, chosen, opening, listing).app)
  {
  }

  /** Running the current editor's text keeps the invariant: without a
      connection nothing reaches the engine, so the tables list stays
      empty. */
  lemma RunKeepsInv(a: App, engine: SqlExecutor.Engine, commitError: Option<string>, tablesAfter: Listing)
    requires Inv(a)
    ensures Inv(ExecuteSql(a, engine, commitError, tablesAfter).app)
  {
  }

  /** Opening a file keeps the invariant. */
  lemma OpenKeepsInv(a: App, chosen: string, read: ReadResult)
    requires Inv(a)
    ensures Inv(OpenSqlFile(a, chosen, read))
  {
    if chosen != "" && read.Read? {
      CreateKeepsReady(a.editors);
      RenameKeepsReady(CreateSqlEditor(a.editors, None).registry, LastSegment(chosen));
    }
  }

  /** The window after a sequence of events, each handled in turn; the
      invariant holds after every one of them. */
  function Replay(a: App, events: seq<Event>): (r: App)
    requires Inv(a)
    ensures Inv(r)
    decreases |events|
  {
    if events == [] then a
    else
      DispatchKeepsInv(a, events[0]);
      Replay(Dispatch(a, events[0]).app, events[1..])
  }

  /** Whatever happens, both tools are enabled exactly while a connection
      is held, and the label names the connected path or says there is
      none. */
  lemma ToolsIffConnected(events: seq<Event>)
    ensures var a := Replay(Init(), events);
            && (a.tools.erd == Normal <==> a.conn.Some?)
            && (a.tools.exportDb == Normal <==> a.conn.Some?)
            && (a.conn.Some? ==> a.dbLabel == ConnectedPrefix + a.path.value)
            && (a.conn.None? ==> a.dbLabel == NoDatabase)
  {
  }

  /** With the invariant, a chosen path ends in an escaped exception
      exactly when the menu entry is disabled (no connection) or a query or
      the rendering raises, and the diagram is rendered exactly in the
      remaining case. */
  lemma ErdEscapes(a: App, chosen: string, c: Catalog, failure: Option<string>)
    requires Inv(a)
    ensures var o := GenerateErd(a, chosen, c, failure);
            && (o.escaped <==> chosen != "" && (a.tools.erd == Disabled || failure.Some?))
            && (o.effect.Rendered? <==> chosen != "" && a.tools.erd == Normal && failure.None?)
  {
  }

  /** The export warning appears exactly when the export entry is
      disabled. */
  lemma ExportWarnsIffDisabled(a: App, chosen: string, c: Catalog, failure: Option<string>)
    requires Inv(a)
    ensures var o := ExportDatabaseWrapper(a, chosen, c, failure);
            (o.app.screen.popups == a.screen.popups + [Popup(WarningBox, "Advertencia", NothingToExport)])
              <==> a.tools.exportDb == Disabled
  {
    var o := ExportDatabaseWrapper(a, chosen, c, failure);
    if a.conn.Some? {
      var run := Exporter.ExportDatabase(a.screen, chosen, c, failure);
      if chosen != "" {
        assert o.app.screen.popups[|a.screen.popups|].kind != WarningBox;
      }
    }
  }

  /** A ready registry always has a current editor, so "No hay editor
      activo" never shows, and the editor's text reaches the executor. */
  lemma ExecuteAlwaysHasEditor(a: App, engine: SqlExecutor.Engine, commitError: Option<string>,
                               tablesAfter: Listing)
    requires Inv(a)
    ensures GetCurrentEditor(a.editors).Some?
    ensures var o := ExecuteSql(a, engine, commitError, tablesAfter);
            o.escaped ==> |o.effect.steps| == 2
  {
  }

  /** Opening a file and pressing Execute runs the file's text stripped of
      surrounding whitespace (Tk's trailing newline included). */
  lemma OpenThenExecute(a: App, chosen: string, content: string, engine: SqlExecutor.Engine,
                        commitError: Option<string>, tablesAfter: Listing)
    requires Inv(a) && chosen != ""
    ensures var b := OpenSqlFile(a, chosen, Read(content));
            var o := ExecuteSql(b, engine, commitError, tablesAfter);
            && o.effect.Ran?
            && (o.effect.steps != [] ==>
                  var command := Strip(content + "\n");
                  o.effect.steps[0] == SqlExecutor.Execute(SqlExecutor.ModeFor(command), command))
  {
  }

  /** Opening a file whose name is not an editor's name and then pressing
      Ctrl-W closes nothing: the shortcut looks the tab's text up among the
      editors' names, and the file's tab shows the file name. */
  lemma OpenThenCloseIsNoop(a: App, chosen: string, content: string)
    requires Inv(a) && chosen != ""
    requires LastSegment(chosen) !in Keys(CreateSqlEditor(a.editors, None).registry.editors)
    ensures var b := OpenSqlFile(a, chosen, Read(content));
            Inv(b) && Dispatch(b, CloseCurrent) == Outcome(b, NoEffect, false)
  {
    var b := OpenSqlFile(a, chosen, Read(content));
    OpenKeepsInv(a, chosen, Read(content));
    var c := CreateSqlEditor(a.editors, None).registry;
    CreateKeepsReady(a.editors);
    RenamedCloseIsNoop(c, LastSegment(chosen));
    CloseCurrentNoop(b);
  }

  /** When Ctrl-W finds nothing to close, its handler changes nothing. */
  lemma CloseCurrentNoop(b: App)
    requires Inv(b) && CloseCurrentEditor(b.editors) == Closing(b.editors, false)
    ensures Dispatch(b, CloseCurrent) == Outcome(b, NoEffect, false)
  {
  }

  /** Saving writes exactly the current editor's text with Tk's trailing
      newline, and the selected tab then shows the file name. That tab is
      the written editor's own only while the two are in step. */
  lemma SaveWritesBuffer(a: App, chosen: string)
    requires Inv(a) && chosen != ""
    ensures var o := SaveSqlFile(a, chosen, None);
            var w := GetCurrentEditor(a.editors).value;
            var i := a.editors.selected.value;
            && o.effect == Wrote(Exporter.WrittenFile(chosen, BufferText(a, w) + "\n"))
            && o.app.editors.tabs[i] == (a.editors.tabs[i].0, LastSegment(chosen))
            && (Synced(a.editors) ==> a.editors.tabs[i].0 == w)
  {
  }

  /** After a click on another tab, saving writes the text of the editor
      that was current before the click but gives the clicked tab the
      file's name: the file and the renamed tab belong to different
      editors. */
  lemma ClickThenSaveSplits(a: App, i: nat, chosen: string)
    requires Inv(a) && Synced(a.editors) && chosen != ""
    requires i < |a.editors.tabs| && i != a.editors.selected.value
    ensures var b := Dispatch(a, ClickTab(i)).app;
            var o := SaveSqlFile(b, chosen, None);
            var w := GetCurrentEditor(a.editors).value;
            && o.effect == Wrote(Exporter.WrittenFile(chosen, BufferText(a, w) + "\n"))
            && o.app.editors.tabs[i] == (a.editors.tabs[i].0, LastSegment(chosen))
            && a.editors.tabs[i].0 != w
  {
    DispatchClickTab(a, i);
    var r := a.editors;
    assert r.tabs[i].0 != r.tabs[r.selected.value].0;
  }

  /** A click on a tab does not change what Execute runs: the editor
      current before the click is run, whichever tab is shown. */
  lemma ClickThenExecute(a: App, i: nat, engine: SqlExecutor.Engine, commitError: Option<string>,
                         tablesAfter: Listing)
    requires Inv(a)
    ensures var b := Dispatch(a, ClickTab(i)).app;
            ExecuteSql(b, engine, commitError, tablesAfter).effect == ExecuteSql(a, engine, commitError, tablesAfter).effect
  {
    DispatchClickTab(a, i);
  }

  /** After a click on another tab, typing fills the clicked tab's editor,
      but Execute still runs the editor that was current before the click,
      whose text the typing left alone: what was typed is not what runs. */
  lemma ClickTypeThenExecute(a: App, i: nat, text: string, engine: SqlExecutor.Engine,
                             commitError: Option<string>, tablesAfter: Listing)
    requires Inv(a) && Synced(a.editors)
    requires i < |a.editors.tabs| && i != a.editors.selected.value
    ensures var b := Dispatch(a, ClickTab(i)).app;
            var c := TypeText(b, text);
            var w := GetCurrentEditor(a.editors).value;
            && BufferText(c, a.editors.tabs[i].0) == text
            && a.editors.tabs[i].0 != w
            && GetCurrentEditor(c.editors) == Some(w)
            && BufferText(c, w) == BufferText(a, w)
            && ExecuteSql(c, engine, commitError, tablesAfter).effect == ExecuteSql(a, engine, commitError, tablesAfter).effect
  {
    DispatchClickTab(a, i);
    var r := a.editors;
    assert r.tabs[i].0 != r.tabs[r.selected.value].0;
  }

  /** The engine's `sqlite_sequence` table is drawn in the diagram but
      left out of the SQL dump. */
  lemma {:induction false} SequenceTableDrawnNotDumped(c: Catalog, i: nat)
    requires i < |c| && c[i].name == Exporter.SequenceTable
    ensures Erd.BuildGraph(c).nodes[i].id == Exporter.SequenceTable
    ensures c[i] !in Exporter.ExportedTables(c)
  {
    Erd.NodesAreTables(c);
    Exporter.ExportedTablesMembers(c);
  }

  /** A click on a table, while connected, runs `SELECT * FROM` that
      table, which the executor treats as a SELECT. */
  lemma ClickRunsTableQuery(a: App, i: nat, engine: SqlExecutor.Engine, commitError: Option<string>,
                            tablesAfter: Listing)
    requires a.conn.Some? && i < |a.screen.tables|
    ensures var q := SqlExecutor.TableQuery(a.screen.tables[i]);
            var o := OnTableSelect(a, Some(i), engine, commitError, tablesAfter);
            && SqlExecutor.IsSelect(q)
            && o.effect.Ran? && o.effect.steps != []
            && o.effect.steps[0] == SqlExecutor.Execute(SqlExecutor.ModeFor(q), q)
  {
    var q := SqlExecutor.TableQuery(a.screen.tables[i]);
    SqlExecutor.TableQueryRoute(a.screen.tables[i]);
    assert q != "";
  }
}
