/** `DatabaseManager` (db/connection.py): the single connection handle and
    its path. The file dialog's answer is an input (the empty string when
    the user cancels), and so is what `sqlite3.connect` does with the
    chosen path. Each operation returns the new manager, the reply the
    caller sees, and the message boxes it shows. */
module Connection {
  import opened Optional
  import opened UiBuilder

  /** An open `sqlite3` connection, known by identity only. */
  datatype Handle = Handle(id: nat)

  datatype Manager = Manager(conn: Option<Handle>, path: Option<string>)

  /** What `sqlite3.connect(path)` did. */
  datatype Opening = Opened(handle: Handle) | OpenFailed(message: string)

  /** The `(success, connection, path)` triple. */
  datatype Reply = Reply(ok: bool, conn: Option<Handle>, path: Option<string>)

  const Refused: Reply := Reply(false, None, None)

  datatype Attempt = Attempt(manager: Manager, reply: Reply, popups: seq<Popup>)

  datatype Detach = Detach(manager: Manager, ok: bool, closed: Option<Handle>, popups: seq<Popup>)

  /** A new manager holds nothing. */
  const Initial: Manager := Manager(None, None)

  /** The shared shape of `connect_db` and `create_new_db`: a cancelled
      dialog changes nothing and shows nothing; a failed connect shows the
      error and keeps the previous state, because the exception comes
      before any assignment; a successful one replaces the handle and path
      (the old handle is dropped without being closed) and reports them. */
  function Open(m: Manager, chosen: string, opening: Opening,
                okTitle: string, okPrefix: string, errorTitle: string): (a: Attempt)
    ensures chosen == "" ==> a == Attempt(m, Refused, [])
    ensures chosen != "" && opening.OpenFailed? ==>
              a == Attempt(m, Refused, [Popup(ErrorBox, errorTitle, opening.message)])
    ensures chosen != "" && opening.Opened? ==>
              && a.manager == Manager(Some(opening.handle), Some(chosen))
              && a.reply == Reply(true, Some(opening.handle), Some(chosen))
              && a.popups == [Popup(InfoBox, okTitle, okPrefix + chosen)]
  {
    if chosen == "" then Attempt(m, Refused, [])
    else match opening
      case OpenFailed(msg) => Attempt(m, Refused, [Popup(ErrorBox, errorTitle, msg)])
      case Opened(h) =>
        Attempt(Manager(Some(h), Some(chosen)), Reply(true, Some(h), Some(chosen)),
                [Popup(InfoBox, okTitle, okPrefix + chosen)])
  }

  /** `connect_db`: open an existing database chosen in the open dialog. */
  function ConnectDb(m: Manager, chosen: string, opening: Opening): (a: Attempt)
    ensures a.reply.ok <==> chosen != "" && opening.Opened?
    ensures !a.reply.ok ==> a.reply == Refused && a.manager == m
    ensures a.reply.ok ==> a.manager.conn == a.reply.conn == Some(opening.handle)
                           && a.manager.path == a.reply.path == Some(chosen)
    ensures a.reply.ok ==> a.popups == [Popup(InfoBox, "Conexión Exitosa", "Conectado a la base de datos: " + chosen)]
    ensures chosen != "" && opening.OpenFailed? ==>
              a.popups == [Popup(ErrorBox, "Error de Conexión", opening.message)]
    ensures chosen == "" ==> a.popups == []
  {
    Open(m, chosen, opening, "Conexión Exitosa", "Conectado a la base de datos: ",
         "Error de Conexión")
  }

  /** `create_new_db`: create (or open) the database named in the save
      dialog; the same three outcomes as `connect_db`, other messages. */
  function CreateNewDb(m: Manager, chosen: string, opening: Opening): (a: Attempt)
    ensures a.reply.ok <==> chosen != "" && opening.Opened?
    ensures !a.reply.ok ==> a.reply == Refused && a.manager == m
    ensures a.reply.ok ==> a.manager.conn == a.reply.conn == Some(opening.handle)
                           && a.manager.path == a.reply.path == Some(chosen)
    ensures a.reply.ok ==> a.popups == [Popup(InfoBox, "Base de Datos Creada", "Nueva base de datos creada: " + chosen)]
    ensures chosen != "" && opening.OpenFailed? ==>
              a.popups == [Popup(ErrorBox, "Error al Crear Base de Datos", opening.message)]
    ensures chosen == "" ==> a.popups == []
  {
    Open(m, chosen, opening, "Base de Datos Creada", "Nueva base de datos creada: ",
         "Error al Crear Base de Datos")
  }

  /** `connect_db` and `create_new_db` leave the same manager and give the
      same reply for the same dialog answer and connect result; only the
      message boxes differ. */
  lemma CreateLikeConnect(m: Manager, chosen: string, opening: Opening)
    ensures CreateNewDb(m, chosen, opening).manager == ConnectDb(m, chosen, opening).manager
    ensures CreateNewDb(m, chosen, opening).reply == ConnectDb(m, chosen, opening).reply
    ensures |CreateNewDb(m, chosen, opening).popups| == |ConnectDb(m, chosen, opening).popups|
  {
  }

  /** Connecting while connected installs the new handle whatever the old
      one was; nothing reports the old handle as closed. */
  lemma ConnectReplaces(m: Manager, chosen: string, h: Handle)
    requires m.conn.Some? && chosen != ""
    ensures ConnectDb(m, chosen, Opened(h)).manager == Manager(Some(h), Some(chosen))
  {
  }

  /** `disconnect_db`: with a connection, close it, forget handle and path
      and report success; without one, report failure and change nothing. */
  function DisconnectDb(m: Manager): (d: Detach)
    ensures d.ok <==> m.conn.Some?
    ensures d.ok ==> d.manager == Initial && d.closed == m.conn
    ensures d.ok ==> d.popups == [Popup(InfoBox, "Desconexión Exitosa", "Se ha desconectado de la base de datos.")]
    ensures !d.ok ==> d.manager == m && d.closed == None && d.popups == []
  {
    if m.conn.Some? then
      Detach(Initial, true, m.conn,
             [Popup(InfoBox, "Desconexión Exitosa", "Se ha desconectado de la base de datos.")])
    else Detach(m, false, None, [])
  }

  /** Disconnecting right after a successful connect closes exactly the
      handle that connect opened and returns to the initial state. */
  lemma DisconnectUndoesConnect(m: Manager, chosen: string, h: Handle)
    requires chosen != ""
    ensures var a := ConnectDb(m, chosen, Opened(h));
            var d := DisconnectDb(a.manager);
            d.ok && d.closed == Some(h) && d.manager == Initial
  {
  }
}
