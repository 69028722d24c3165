/** ui/ui_updater.py: mirroring the connection into the tools menu, the
    database label and the tables list box. */
module UiUpdater {
  import opened Optional
  import opened Text
  import opened UiBuilder
  import opened Connection

  /** A menu entry's `state`. */
  datatype ToolState = Normal | Disabled

  /** The two entries of the tools menu: "Generar ERD" and "Exportar Base
      de Datos". */
  datatype Tools = Tools(erd: ToolState, exportDb: ToolState)

  /** Both entries are created disabled. */
  const InitialTools: Tools := Tools(Disabled, Disabled)

  const NoDatabase := "No hay base de datos conectada"
  const ConnectedPrefix := "Conectado a: "

  /** `update_tools_menu_state`: both entries get one state, `normal`
      exactly when connected. */
  function UpdateToolsMenuState(connected: bool): (r: Tools)
    ensures r.erd == r.exportDb
    ensures r.erd == Normal <==> connected
  {
    var state := if connected then Normal else Disabled;
    Tools(state, state)
  }

  /** Python truthiness of an optional path: present and non-empty. */
  predicate Truthy(path: Option<string>) {
    path.Some? && path.value != ""
  }

  /** `update_db_label`: the text of the database label. */
  function DbLabel(path: Option<string>): (r: string)
    ensures Truthy(path) ==> r == ConnectedPrefix + path.value
    ensures !Truthy(path) ==> r == NoDatabase
  {
    if Truthy(path) then ConnectedPrefix + path.value else NoDatabase
  }

  /** The label tells whether a path is shown, and which one: it starts
      with the connected prefix exactly when the path is truthy, and the
      rest of it is the path. */
  lemma DbLabelDecodes(path: Option<string>)
    ensures StartsWith(DbLabel(path), ConnectedPrefix) <==> Truthy(path)
    ensures Truthy(path) ==> DbLabel(path)[|ConnectedPrefix|..] == path.value
  {
    if !Truthy(path) {
      assert DbLabel(path)[0] != ConnectedPrefix[0];
    }
  }

  /** What the `sqlite_master` query gave: the table names in query order,
      or the `sqlite3.Error` it raised. `sqlite3.connect` accepts a file
      that is not a database; the first query on it is what raises. */
  datatype Listing = Listed(names: seq<string>) | ListFailed(message: string)

  /** `update_tables_list`: without a connection nothing happens; with
      one, the list box holds exactly the engine's table names, in query
      order, whatever it held before. A query that raises does so before
      the list box is cleared, and the exception leaves the function
      (`None`) with the screen as it was. */
  function UpdateTablesList(s: Screen, conn: Option<Handle>, listing: Listing): (r: Option<Screen>)
    ensures conn.None? ==> r == Some(s)
    ensures r.None? <==> conn.Some? && listing.ListFailed?
    ensures conn.Some? && listing.Listed? ==> r.Some? && r.value.tables == listing.names
    ensures r.Some? ==> r.value.console == s.console && r.value.results == s.results && r.value.popups == s.popups
  {
    if conn.None? then Some(s)
    else match listing
      case ListFailed(_) => None
      case Listed(names) => Some(s.(tables := names))
  }

  /** A completed refresh forgets the previous list: two screens that
      differ only in their lists end up equal. */
  lemma UpdateTablesListForgetsOld(s: Screen, before: seq<string>, conn: Option<Handle>, names: seq<string>)
    requires conn.Some?
    ensures UpdateTablesList(s.(tables := before), conn, Listed(names)) == UpdateTablesList(s, conn, Listed(names))
  {
  }
}
