# TsukiSQL core, modelled in Dafny

TsukiSQL is a Tkinter desktop client for SQLite. A window holds one
`DatabaseManager` connection, a notebook of SQL editor tabs, a console, a
results table, a list of tables and a tools menu (entity-relationship
diagram, SQL dump). This project models the logic of that window as pure
Dafny functions over immutable state, and proves what the handlers promise:

- **Connection** (`db/connection.py`). The manager's three operations: connect, create and disconnect.
- **UiUpdater** (`ui/ui_updater.py`). The tools-menu state, the database label and the tables list.
- **UiBuilder** (`ui/ui_builder.py`). The console's tag choice and the screen, meaning console chunks, results, table names and message boxes.
- **EditorTabs** (`ui/ui_builder.py` plus the Ctrl-W and rename code of `main.py`). The editors dict and the notebook as two insertion-ordered sequences.
  - Covers `create_sql_editor`, `close_editor`, `get_current_editor` and `get_all_editors`.
  - Proves when they stay aligned: they do whenever only unnamed editors are created, as the application does.
  - Shows where they come apart.
- **SqlExecutor** (`ui/sql_executor.py`). How `execute_sql` chooses the text, the execution mode and the output route, plus `display_results` and the table shortcut.
- **Exporter** (`utils/exporter.py`). The exact text of the SQL dump.
- **Erd** (`utils/erd_generator.py`). The graph handed to Graphviz:
  - the output format taken from the path;
  - one record node per table;
  - one edge per foreign-key row.
- **App** (`main.py`). The window state and every handler, plus the user's clicks on editor tabs. `Dispatch` handles one event, `Replay` a sequence of events. The window invariant `Inv` holds after any sequence of events. It says:
  - both tools are enabled exactly while a connection is held;
  - the label shows the connected path;
  - the tables list is empty when disconnected;
  - there is always a current editor, and it is one of the registered editors;
  - closing never raises.

Support modules:
- `Optional` is the option type.
- `Text` covers Python's `str.strip`, ASCII lower-casing, `str(n)` for naturals and `split('/')[-1]`.
- `Dict` is a Python dict as an insertion-ordered sequence of pairs.
- `Catalog` holds the database contents the exporter and the diagram generator read.

Everything outside the process is an input to the model:
- file dialogs, where `""` means cancelled;
- what `sqlite3.connect` returns;
- the SQL engine's reply to a command;
- whether the commit raises;
- what the table listing gives after a connect or a command: the names, or the error its query raised;
- file reads, and whether a write raises;
- the database contents.

Where the model and the code could differ, the model follows the code:
- `get('1.0', END)` hands the editor's text over with Tk's trailing newline. This shows in saving and in executing.
- A reused editor name keeps its old dict position, while the notebook gains a new tab.
- Ctrl-W closes the editor whose dict key equals the selected tab's text, and opening or saving a file renames that tab.
- The diagram handler does not check for a connection itself; its only guard is that the menu entry is disabled while there is none, which the window invariant keeps. Called without a connection, it would fail with an uncaught error. With a connection it can still fail, because the `PRAGMA` queries use the table name unquoted.
- `sqlite3.connect` accepts a file that is not a database. The tables refresh right after a connect or create is what raises, and nothing catches it: handle, path, label and tools are already set, the old tables list stays and no console line is written. A refresh that raises after an executed command is reported as an SQL error.
- A click on another editor tab selects it, but nothing updates `sql_text`. Typing goes to the editor on display, while Execute and Save keep using the editor that was current before the click, and Save renames the clicked tab.
- The INSERT column list comes from `cursor.description` of `SELECT *`, not from `PRAGMA table_info`. The two differ for generated columns, so the catalog carries both.
- A SELECT whose engine reply carries no description clears the results and then fails. A command containing `;` runs through `executescript`, which leaves the cursor with no rows and no description, so a SELECT with a `;` (even a trailing one) never shows results.

## Model

| member | source | states |
|---|---|---|
| Text.Strip | ui/sql_executor.py:41 | `strip()` removes exactly the leading and trailing Python whitespace; the result is a slice of the input whose ends are not whitespace |
| Text.StripIdempotent | ui/sql_executor.py:41 | stripping twice is stripping once |
| Text.NatToString | ui/ui_builder.py:147-149 | `str(n)`: non-empty decimal digits without a leading zero |
| Text.ParseNatToString | ui/ui_builder.py:149 | reading back the decimal text of `n` gives `n` |
| Text.NatToStringInjective | ui/ui_builder.py:149 | different counters give different texts |
| Text.LastSegment | main.py:108 | `split('/')[-1]`: a suffix of the path with no `/`, preceded by `/` unless it is the whole path |
| Dict.Get | ui/ui_builder.py:203-204 | lookup finds a value exactly for present keys, the value of the first entry with that key |
| Dict.Put | ui/ui_builder.py:179-183 | assigning a new key appends it; assigning a present key keeps the key order |
| Dict.GetPut | ui/ui_builder.py:179-183 | after `d[k] = v`, `k` gives `v` and every other key its old value |
| Dict.PutPresent | ui/ui_builder.py:179-183 | assigning a present key replaces the entry in place |
| Dict.Remove | ui/ui_builder.py:212 | after `del d[k]`, `k` is absent and the dict is not longer than before |
| Dict.RemoveAt | ui/ui_builder.py:212 | `del d[k]` cuts out exactly `k`'s entry and keeps the others in order |
| Dict.RemoveWf | ui/ui_builder.py:212 | `del` keeps keys distinct and leaves exactly the other keys |
| UiBuilder.TagFor | ui/ui_builder.py:123-133 | `error` and `success` pick their own tags, every other type picks `info` |
| UiBuilder.TagForName | ui/ui_builder.py:123-133 | a tag's own name selects that tag |
| UiBuilder.Notify | ui/sql_executor.py:47 | a message box is added after the earlier ones; console, results and tables stay |
| UiBuilder.AppendToConsole | ui/ui_builder.py:114-135 | one chunk with the text and a newline under the chosen tag is appended; nothing else on screen changes |
| UiUpdater.UpdateToolsMenuState | ui/ui_updater.py:3-16 | both tool entries get the same state, `normal` exactly when connected |
| UiUpdater.DbLabel | ui/ui_updater.py:18-31 | the label names a truthy path after the prefix, otherwise says there is no database |
| UiUpdater.DbLabelDecodes | ui/ui_updater.py:28-31 | the label starts with the prefix exactly when the path is truthy, and the rest is the path |
| UiUpdater.UpdateTablesList | ui/ui_updater.py:33-51 | without a connection nothing changes; with one the list holds exactly the engine's names, or the query raises before the list is touched; console, results and boxes never change |
| UiUpdater.UpdateTablesListForgetsOld | ui/ui_updater.py:49-51 | the list before a completed refresh does not matter |
| Connection.Open | db/connection.py:9-25 | cancelled: no change and no box; failed: error box and old state; succeeded: new handle and path and an info box |
| Connection.ConnectDb | db/connection.py:9-25 | success exactly for a chosen path that opens; on failure the manager is unchanged; a cancelled dialog shows no box, success reports the path in a "Conexión Exitosa" box, a failed open shows the engine message in a "Error de Conexión" box |
| Connection.CreateNewDb | db/connection.py:37-53 | the same three outcomes as connecting: no box when cancelled, otherwise a "Base de Datos Creada" or an "Error al Crear Base de Datos" box |
| Connection.CreateLikeConnect | db/connection.py:9-53 | creating and connecting leave the same manager and reply |
| Connection.ConnectReplaces | db/connection.py:16-21 | connecting while connected installs the new handle |
| Connection.DisconnectDb | db/connection.py:27-35 | succeeds exactly with a connection, closing it, returning to the initial state and showing the "Desconexión Exitosa" box; without one nothing changes and no box shows |
| Connection.DisconnectUndoesConnect | db/connection.py:27-35 | disconnecting right after a connect closes exactly that handle |
| Exporter.ExportedTables | utils/exporter.py:24-25 | no exported table is `sqlite_sequence` |
| Exporter.ExportedTablesMembers | utils/exporter.py:24-25 | the dump covers exactly the tables not named `sqlite_sequence` |
| Exporter.ExportedTablesAppend | utils/exporter.py:24-25 | the filter keeps catalog order |
| Exporter.ExportedTablesKeepsUserTables | utils/exporter.py:24-25 | a catalog without `sqlite_sequence` is exported whole |
| Exporter.RenderValue | utils/exporter.py:43 | NULL renders as the bare word, anything else as its text in single quotes, unescaped |
| Exporter.RenderValueInjective | utils/exporter.py:43 | one rendered value determines the value |
| Exporter.RenderRow | utils/exporter.py:43 | one rendered value per column, in order |
| Exporter.ValuesListSnoc | utils/exporter.py:43 | the VALUES list is the rendered values joined by a comma and a space |
| Exporter.ValuesListAmbiguous | utils/exporter.py:43 | two different rows can give the same VALUES list, because quotes are not escaped |
| Exporter.InsertStatement | utils/exporter.py:44 | `INSERT INTO <table> (`, the column names joined by `, `, `) VALUES (`, the VALUES list, `);`, each piece at its position |
| Exporter.InsertStatementDeterminesColumns | utils/exporter.py:40-44 | for one table and row, the statement gives back a non-empty column list whose names have no comma |
| Text.JoinInjective | utils/exporter.py:44 | `", ".join` of a non-empty list of comma-free strings can be read back |
| Exporter.InsertLines | utils/exporter.py:41-45 | one INSERT per row, in row order |
| Exporter.TableDump | utils/exporter.py:32-46 | the DDL block first; an empty table gets only that; otherwise the text ends with `);` and a blank line; the INSERT columns are the `SELECT *` description names |
| Exporter.DumpLines | utils/exporter.py:32-46 | DDL line, blank line, one INSERT per row, and a final blank line only after rows |
| Exporter.TableDumpIsLines | utils/exporter.py:32-46 | a table's dump is exactly its lines, each ended by a newline |
| Exporter.Export | utils/exporter.py:24-46 | a catalog with nothing to export gives an empty dump; a dump starting with an exported table starts with its DDL block |
| Exporter.ExportAppend | utils/exporter.py:30-46 | the dump of a concatenation is the concatenation of the dumps |
| Exporter.ExportIsDumpOfExportedTables | utils/exporter.py:24-46 | the dump is the table dumps of exactly the exported tables, in order |
| Exporter.ExportDatabase | utils/exporter.py:4-53 | cancelled: nothing; failed: error box and no file; else the dump is written and success shown |
| Erd.FormatFor | utils/erd_generator.py:24 | `png` exactly for a path ending in `.png`, `pdf` otherwise |
| Erd.ColumnLine | utils/erd_generator.py:56-61 | `name : type `, then `PK` exactly for key columns, then the left break, and nothing else (the length is fixed) |
| Erd.ColumnLineDecodes | utils/erd_generator.py:56-61 | given the column name, the line gives back the type and the key flag |
| Erd.Label | utils/erd_generator.py:55-64 | `{`, table name, `|`, the column lines, `}` |
| Erd.Nodes | utils/erd_generator.py:50-64 | one node per table, in catalog order, named after it |
| Erd.TableEdges | utils/erd_generator.py:67-77 | one edge per foreign-key row, from `table:from` to `target:to` |
| Erd.Edges | utils/erd_generator.py:66-77 | exactly one edge per foreign-key row, each labelled FK and leaving a listed table |
| Erd.EdgesAppend | utils/erd_generator.py:66-77 | edges are collected table by table in order |
| Erd.BuildGraph | utils/erd_generator.py:46-77 | node `i` is table `i` with its record label; one edge per foreign-key row, each labelled FK and leaving a listed table |
| Erd.GenerateErdDialog | utils/erd_generator.py:5-25 | no diagram exactly when cancelled; else the chosen path, its format, and the graph of the whole catalog |
| Erd.NodesAreTables | utils/erd_generator.py:46-64 | node ids are the table names, including `sqlite_sequence` |
| Erd.EdgeTargetUnchecked | utils/erd_generator.py:67-77 | an edge may point to a table that has no node |
| SqlExecutor.ChooseCommand | ui/sql_executor.py:41 | a non-empty custom command wins; otherwise the stripped editor text; with neither the handler fails |
| SqlExecutor.IsSelectCaseInsensitive | ui/sql_executor.py:61 | `lower().startswith("select")` holds exactly when the first six characters spell `select` in any mix of cases |
| Text.LowerAscii | ui/sql_executor.py:61 | capital ASCII letters move to their small forms; every other character stays |
| SqlExecutor.ModeFor | ui/sql_executor.py:54-57 | `executescript` exactly for commands containing `;` |
| SqlExecutor.DisplayResults | ui/sql_executor.py:76-95 | old rows go; columns from the description and rows in order; without a description it fails after clearing |
| SqlExecutor.ExecuteSql | ui/sql_executor.py:26-74 | at most an execute then a commit, of the chosen command in the mode its `;` selects; results and tables change only after a commit that did not raise |
| SqlExecutor.ExecuteSqlCommitError | ui/sql_executor.py:59-74 | a commit that raises gives two steps, one error line and one "SQL Error" box, and leaves results and tables alone |
| SqlExecutor.ExecuteSqlRejects | ui/sql_executor.py:44-48 | empty command or no connection: one error line and one warning box, nothing run |
| SqlExecutor.ExecuteSqlEngineError | ui/sql_executor.py:71-74 | an engine error: no commit, one error line and one error box |
| SqlExecutor.ExecuteSqlSelectRoute | ui/sql_executor.py:57-64 | a single-statement SELECT shows the fetched rows and logs the row count |
| SqlExecutor.ExecuteSqlScriptSelect | ui/sql_executor.py:54-63 | a SELECT with a `;` never shows anything, and escapes exactly when neither the engine nor the commit raised |
| SqlExecutor.ExecuteSqlOtherRoute | ui/sql_executor.py:65-69 | another command logs and shows success and refreshes the tables list |
| SqlExecutor.ExecuteSqlRefreshError | ui/sql_executor.py:65-74 | a refresh that raises adds the error line and box after the success line and box, and keeps the old list |
| SqlExecutor.ExecuteSqlSelectWithoutDescription | ui/sql_executor.py:61-90 | a SELECT without a description, which includes every script, clears the results and escapes |
| SqlExecutor.OnTableSelect | ui/sql_executor.py:5-24 | no selection: nothing; else the query is echoed as info and handed on (the window's list box calls `App.OnTableSelect` instead, so this echo never shows) |
| SqlExecutor.TableQueryRoute | ui/sql_executor.py:22 | the table query is a SELECT and goes to `executescript` exactly when the name has `;` |
| EditorTabs.AutoNameInjective | ui/ui_builder.py:147-149 | different counters give different automatic names |
| EditorTabs.CreateSqlEditor | ui/ui_builder.py:137-194 | the counter moves only for unnamed editors; the key maps to the new editor, other keys unchanged; a tab is appended and selected |
| EditorTabs.CreateValid | ui/ui_builder.py:137-194 | creation keeps the bookkeeping valid, with a fresh widget |
| EditorTabs.CloseEditor | ui/ui_builder.py:196-223 | unknown name: nothing; else frame and entry removed, the tab left of the selected one selected, and a new editor when none remain |
| EditorTabs.Neighbour | ui/ui_builder.py:216 | `max(0, index - 1)`: the position before `index`, or 0 |
| EditorTabs.CloseEditorValid | ui/ui_builder.py:196-223 | closing keeps the bookkeeping valid, removes the frame and always leaves an editor |
| EditorTabs.CloseKeepsValid | ui/ui_builder.py:214-220 | while editors remain, the reselection index is inside the notebook |
| EditorTabs.GetCurrentEditor | ui/ui_builder.py:225-235 | an editor exactly when a tab is selected; one of the tabs' editors when aligned; the selected tab's editor only while the two are in step |
| EditorTabs.SelectTab | ui/ui_builder.py:51 | a tab click selects that tab and changes nothing else, so the current editor stays the same |
| EditorTabs.CreateSyncs | ui/ui_builder.py:186-192 | creating an editor makes the selected tab's editor current |
| EditorTabs.CloseSyncs | ui/ui_builder.py:214-220 | closing a registered editor makes the newly selected tab's editor current |
| EditorTabs.RenameKeepsSynced | main.py:106-109 | renaming the selected tab keeps its editor current |
| EditorTabs.ClickDesyncs | ui/ui_builder.py:225-235 | after a click on the first of two tabs, the second editor is still current |
| EditorTabs.DisplayedEditor | ui/ui_builder.py:186-192 | the editor on display is the selected tab's own text widget, present exactly when a tab is selected |
| EditorTabs.DisplayedIsCurrent | ui/ui_builder.py:186-192 | the editor on display is `sql_text` exactly while the two are in step |
| EditorTabs.GetAllEditors | ui/ui_builder.py:237-244 | one editor per dict entry, in dict order, which is the notebook order when aligned |
| EditorTabs.RenameSelected | main.py:106-109 | only the selected tab's text changes; the dict and the tab frames stay |
| EditorTabs.CloseCurrentEditor | main.py:79-86 | Ctrl-W closes the editor named by the selected tab's text |
| EditorTabs.CreateKeepsAligned | ui/ui_builder.py:179-192 | creating under a new name keeps tabs and dict aligned |
| EditorTabs.CloseKeepsAligned | ui/ui_builder.py:203-220 | closing keeps them aligned and never raises |
| EditorTabs.FirstEditor | main.py:70 | start-up gives one editor, `SQL Editor 1`, selected |
| EditorTabs.ReusedNameRaises | ui/ui_builder.py:179-220 | reusing a name misaligns dict and tabs, and closing that name raises |
| EditorTabs.CreateKeepsReady | ui/ui_builder.py:147-192 | unnamed creation keeps the registry ready |
| EditorTabs.CloseKeepsReady | ui/ui_builder.py:203-223 | closing any name never raises and keeps the registry ready |
| EditorTabs.RenameKeepsReady | main.py:109 | renaming a tab keeps the registry ready |
| EditorTabs.RenamedCloseIsNoop | main.py:79-86 | Ctrl-W on a tab renamed to a non-key closes nothing |
| EditorTabs.RenamedCloseHitsNamesake | main.py:79-86 | Ctrl-W on a tab renamed to another editor's key closes that other editor |
| App.Init | main.py:19-70 | start: disconnected, tools disabled, label says so, one editor; the invariant holds |
| App.ConnectDb | main.py:164-176 | on success: handle, path, label, tools enabled, the manager's box, tables listed and the success line, with editors, texts and results kept; a refresh that raises escapes with the old list and no line; otherwise only the manager's box |
| App.CreateNewDb | main.py:190-201 | like connecting, without the console line, including the escape from a refresh that raises |
| App.DisconnectDb | main.py:178-188 | with a connection everything about it is cleared, the manager's box shows and the disconnect is logged, with editors, texts and results kept; otherwise nothing changes |
| App.ExportDatabaseWrapper | main.py:209-217 | without a connection a warning; otherwise the export, whose file is the dump |
| App.GenerateErd | main.py:203-207 | with a chosen path, an exception escapes exactly when there is no connection or a query or the rendering raises; otherwise the catalog's graph is rendered |
| App.Absorb | main.py:219-265 | the executor's screen replaces the window's, nothing else in the window changes, and the engine calls become the effect |
| App.ExecuteSql | main.py:250-265 | the current editor's text plus a newline goes to the executor; without an editor a warning |
| App.ExecuteSqlInConsole | main.py:219-234 | the command runs only with a connection |
| App.TableAt | main.py:242-244 | a name exactly for a position in the list |
| App.OnTableSelect | main.py:236-248 | a selected table runs `SELECT * FROM` it through the console path |
| App.NewEditor | main.py:148-154 | a new empty unnamed editor |
| App.OpenSqlFile | main.py:88-116 | cancelled: nothing; read error: console line and box; else a new editor with the text, tab named after the file, logged |
| App.SaveSqlFile | main.py:118-146 | no editor: warning; cancelled: nothing; error: box; else the text plus newline written and the selected tab renamed |
| App.TypeText | ui/ui_builder.py:170-192 | typing sets the text of the editor on display, the selected tab's own text widget, and changes nothing else |
| App.Dispatch | main.py:73-265 | only connect, create, the diagram and the SQL handlers can end in an escaped exception; only export and save write files; only the SQL handlers call the engine |
| App.CloseCurrentNeverRaises | main.py:79-86 | Ctrl-W never raises on the registry the window keeps |
| App.ClickTabKeepsInv | ui/ui_builder.py:225-235 | a tab click keeps the window invariant |
| App.DispatchKeepsInv | main.py:164-265 | every handler keeps the window invariant |
| App.Replay | main.py:164-265 | the invariant holds after any sequence of events |
| App.ToolsIffConnected | main.py:164-201 | after any events both tools are enabled exactly while connected and the label matches |
| App.ErdEscapes | main.py:203-207 | with a chosen path, generating a diagram escapes exactly when its menu entry is disabled or a query raises, and renders otherwise |
| App.ExportWarnsIffDisabled | main.py:209-217 | the export warning appears exactly when the export entry is disabled |
| App.ExecuteAlwaysHasEditor | main.py:250-265 | under the invariant there is always a current editor |
| App.OpenThenExecute | main.py:98-105 | after opening a file, Execute runs its stripped text |
| App.OpenThenCloseIsNoop | main.py:79-116 | after opening a file whose name is no editor key, Ctrl-W changes nothing |
| App.SaveWritesBuffer | main.py:133-142 | saving writes the current editor's text plus a newline and renames the selected tab, which is that editor's tab while the two are in step |
| App.ClickThenSaveSplits | main.py:123-142 | after a click on another tab, Save writes the previous editor's text but renames the clicked tab, which belongs to a different editor |
| App.ClickThenExecute | main.py:250-265 | a tab click does not change what Execute runs |
| App.ClickTypeThenExecute | main.py:250-265 | after a click on another tab, the typed text lands in the clicked editor while Execute runs the earlier editor's unchanged text |
| App.SequenceTableDrawnNotDumped | utils/exporter.py:24 | `sqlite_sequence` gets a diagram node but no dump block |
| App.ClickRunsTableQuery | main.py:242-245 | a click, while connected, executes `SELECT * FROM` the clicked table |

## Left out

- Tk widget construction, layout, styling, scrollbars and the about window (`ui/about_window.py`): no behaviour beyond what the handlers show. Of keyboard focus, only that typing reaches the editor on display is modelled.
- Keyboard shortcuts pressed inside an editor: the editor's own Tk `Text` class bindings run before the window's shortcuts. Ctrl-Return and Ctrl-O first insert a newline at the cursor of the editor on display, which changes the command Execute then runs and the text a later Save writes. `RunEditor` and `OpenFile` model the button and the menu entry, where no newline is inserted.
- A `sqlite3.Error` raised by `fetchall()` after the commit is folded into the engine's `Raised` reply. The screen is the same as the source's, but the recorded steps lack the commit that did happen.
- `RunConsole` accepts any command, while the only caller of `execute_sql_in_console` is the tables list click. This over-approximates what a user can do, and `Inv` holds for it all the same.


- Graphviz layout and rendering (`dot.render`) and the record and edge attributes. The model stops at the graph handed to Graphviz.
- File I/O:
  - Reading is an input, the text or the exception message. Universal-newline translation is not modelled.
  - A failed write produces no file in the model. A partial file left by an exception mid-export is not modelled.
- SQL itself:
  - The engine is an oracle from (mode, command) to rows and a description, or to an error.
  - The queries the exporter and the diagram generator issue are replaced by the `Catalog` they read.
  - Identifiers are not quoted in the source. Whether a query on an unquotable table name raises is an input: the export's and the diagram's `failure`.
- `str()` of SQLite values: a non-NULL value is its text in the model. Number formatting and bytes are not modelled.
- `cursor.description`: only the column names are kept, as the catalog's `resultColumns` and the executor's description.
- Tk's listbox index handling: a selection is a position in the list, or none.
- The Tk notebook's own automatic reselection after `forget`. `close_editor` always reselects or creates, so it is never observable.
- Text.LastSegment: uses `/` only, as the code does. Windows separators are not treated specially.
- App.GenerateErd: when there is no connection the model records only that an exception escaped, not its type.
