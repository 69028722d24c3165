/** What the `UIBuilder` widgets show, as data: the console's tagged text,
    the results table, the tables list box, and the modal message boxes
    shown so far. Widget construction and layout are not modelled. */
module UiBuilder {
  import opened Catalog

  /** The console text tags. */
  datatype Tag = InfoTag | SuccessTag | ErrorTag

  /** One `console.insert(END, text, tag)`. */
  datatype Chunk = Chunk(text: string, tag: Tag)

  /** `messagebox.showinfo`, `showwarning` and `showerror`. */
  datatype PopupKind = InfoBox | WarningBox | ErrorBox

  datatype Popup = Popup(kind: PopupKind, title: string, text: string)

  /** The results table: its column headings and its rows. */
  datatype ResultsView = ResultsView(columns: seq<string>, rows: seq<Row>)

  datatype Screen = Screen(
    console: seq<Chunk>,
    results: ResultsView,
    tables: seq<string>,
    popups: seq<Popup>)

  /** The widgets as built: nothing in any of them. */
  const Blank: Screen := Screen([], ResultsView([], []), [], [])

  /** The tag's name in the console widget. */
  function TagName(t: Tag): string {
    match t
    case InfoTag => "info"
    case SuccessTag => "success"
    case ErrorTag => "error"
  }

  /** The tag `append_to_console` picks for a message type: `error` and
      `success` name their own tags, every other type is shown as `info`. */
  function TagFor(kind: string): (t: Tag)
    ensures t == ErrorTag <==> kind == "error"
    ensures t == SuccessTag <==> kind == "success"
    ensures t == InfoTag <==> kind != "error" && kind != "success"
  {
    if kind == "error" then ErrorTag
    else if kind == "success" then SuccessTag
    else InfoTag
  }

  /** Passing a tag's own name selects that tag. */
  lemma TagForName(t: Tag)
    ensures TagFor(TagName(t)) == t
  {
  }

  /** `append_to_console(text, kind)`: one chunk, the text with a newline,
      under the tag the type selects; nothing else on screen changes. */
  function AppendToConsole(s: Screen, text: string, kind: string): (r: Screen)
    ensures |r.console| == |s.console| + 1
    ensures r.console[..|s.console|] == s.console
    ensures r.console[|s.console|] == Chunk(text + "\n", TagFor(kind))
    ensures r.results == s.results && r.tables == s.tables && r.popups == s.popups
  {
    s.(console := s.console + [Chunk(text + "\n", TagFor(kind))])
  }

  /** A modal message box. */
  function Notify(s: Screen, kind: PopupKind, title: string, text: string): (r: Screen)
    ensures r.popups == s.popups + [Popup(kind, title, text)]
    ensures r.console == s.console && r.results == s.results && r.tables == s.tables
  {
    s.(popups := s.popups + [Popup(kind, title, text)])
  }
}
