/** The SQL editor tabs of ui/ui_builder.py: the `editors` dict (name to
    editor, in insertion order), the counter behind automatic names, the
    notebook's tabs, the selected tab and `sql_text`, the editor the
    execute and save actions use. An editor's frame and its text widget
    are created together and are known here by one widget number; fresh
    numbers come from `nextWidget`. */
module EditorTabs {
  import opened Optional
  import opened Text
  import opened Dict

  /** An editor's frame and text widget, known by one number. */
  datatype Widget = Widget(id: nat)

  /** The notebook's tabs in display order: each tab's frame and its text.
      A frame is added at most once, so frames are keys. */
  type Tabs = Dict<Widget, string>

  datatype Registry = Registry(
    editors: Dict<string, Widget>,
    editorCount: nat,
    current: Option<Widget>,
    tabs: Tabs,
    selected: Option<nat>,
    nextWidget: nat)

  /** The registry right after `UIBuilder.__init__`: no editor, no tab. */
  const Empty: Registry := Registry([], 0, None, [], None, 0)

  /** The automatic name of the `n`th unnamed editor. */
  function AutoName(n: nat): string {
    "SQL Editor " + NatToString(n)
  }

  /** Different counters give different automatic names. */
  lemma AutoNameInjective(a: nat, b: nat)
    ensures AutoName(a) == AutoName(b) ==> a == b
  {
    if AutoName(a) == AutoName(b) {
      assert NatToString(a) == AutoName(a)[11..];
      assert NatToString(b) == AutoName(b)[11..];
      NatToStringInjective(a, b);
    }
  }

  /** No two editors share a widget. */
  ghost predicate DistinctWidgets(d: Dict<string, Widget>) {
    forall i, j :: 0 <= i < j < |d| ==> d[i].1 != d[j].1
  }

  /** The bookkeeping facts that hold between any two operations: names
      and frames are distinct, every registered editor still has its tab,
      and every widget number in use is below `nextWidget`. */
  ghost predicate Consistent(r: Registry) {
    && Wf(r.editors)
    && DistinctWidgets(r.editors)
    && Wf(r.tabs)
    && (forall i :: 0 <= i < |r.editors| ==> r.editors[i].1 in Keys(r.tabs))
    && (forall i :: 0 <= i < |r.tabs| ==> r.tabs[i].0.id < r.nextWidget)
  }

  /** `Consistent`, plus: some tab is selected exactly when there are tabs,
      and `sql_text` is set once a tab exists. */
  ghost predicate Valid(r: Registry) {
    && Consistent(r)
    && (r.selected.Some? <==> r.tabs != [])
    && (r.selected.Some? ==> r.selected.value < |r.tabs|)
    && (r.tabs != [] ==> r.current.Some?)
  }

  /** The tabs are exactly the registered editors, in the same order, and
      `sql_text` is one of them. It need not be the selected tab's editor:
      clicking a tab selects it without touching `sql_text`. */
  ghost predicate Aligned(r: Registry) {
    && Valid(r)
    && Keys(r.tabs) == Values(r.editors)
    && (r.current.Some? ==> r.current.value in Values(r.editors))
  }

  /** `sql_text` is the editor of the selected tab. Creating and closing
      re-establish this; a click on another tab breaks it. */
  ghost predicate Synced(r: Registry) {
    r.selected.Some? && r.selected.value < |r.tabs| ==> r.current == Some(r.tabs[r.selected.value].0)
  }

  /** The dict key `create_sql_editor` uses: the given name, or the next
      automatic one. */
  function EditorKey(r: Registry, name: Option<string>): string {
    if name.Some? then name.value else AutoName(r.editorCount + 1)
  }

  datatype Created = Created(registry: Registry, widget: Widget)

  /** `create_sql_editor`: an unnamed editor takes the next automatic name
      (the counter moves only then); the dict maps the name to a fresh
      editor, replacing any editor already under that name in place; a new
      tab titled with the name is appended and selected, and the new editor
      becomes `sql_text`. A replaced editor's tab stays in the notebook. */
  function CreateSqlEditor(r: Registry, name: Option<string>): (c: Created)
    ensures c.registry.editorCount == if name.None? then r.editorCount + 1 else r.editorCount
    ensures var key := EditorKey(r, name);
            && Get(c.registry.editors, key) == Some(c.widget)
            && (forall k :: k != key ==> Get(c.registry.editors, k) == Get(r.editors, k))
            && c.registry.tabs == r.tabs + [(c.widget, key)]
            && c.registry.selected == Some(|r.tabs|)
            && c.registry.current == Some(c.widget)
  {
    var key := EditorKey(r, name);
    var w := Widget(r.nextWidget);
    GetPutAll(r.editors, key, w);
    Created(Registry(Put(r.editors, key, w), if name.None? then r.editorCount + 1 else r.editorCount,
                     Some(w), r.tabs + [(w, key)], Some(|r.tabs|), r.nextWidget + 1),
            w)
  }

  /** Creating an editor on consistent bookkeeping gives a valid registry
      whose new widget is in no earlier tab. */
  lemma CreateValid(r: Registry, name: Option<string>)
    requires Consistent(r)
    ensures Valid(CreateSqlEditor(r, name).registry)
    ensures CreateSqlEditor(r, name).widget !in Keys(r.tabs)
  {
    FreshWidget(r);
    CreateKeepsValid(r, EditorKey(r, name), CreateSqlEditor(r, name).registry.editorCount);
  }

  /** The next widget number is in no tab. */
  lemma FreshWidget(r: Registry)
    requires Consistent(r)
    ensures Widget(r.nextWidget) !in Keys(r.tabs)
  {
    forall i | 0 <= i < |r.tabs| ensures Keys(r.tabs)[i] != Widget(r.nextWidget) {
    }
  }

  /** Registering a widget that no tab holds keeps names and widgets
      distinct, and every widget in the dict is then in the tabs or is the
      new one. */
  lemma PutFreshWidget(d: Dict<string, Widget>, key: string, w: Widget, frames: seq<Widget>)
    requires Wf(d) && DistinctWidgets(d)
    requires forall i :: 0 <= i < |d| ==> d[i].1 in frames
    requires w !in frames
    ensures Wf(Put(d, key, w)) && DistinctWidgets(Put(d, key, w))
    ensures forall i :: 0 <= i < |Put(d, key, w)| ==> Put(d, key, w)[i].1 in frames + [w]
  {
    PutWf(d, key, w);
    var e := Put(d, key, w);
    if key in Keys(d) {
      PutPresent(d, key, w);
    }
    assert forall i :: 0 <= i < |e| ==> e[i].1 == w || e[i] == d[i];
  }

  /** The step behind `CreateSqlEditor`'s validity: the fresh widget is in
      no tab, so it can join both the dict and the notebook. */
  lemma CreateKeepsValid(r: Registry, key: string, count: nat)
    requires Consistent(r)
    ensures var w := Widget(r.nextWidget);
            Valid(Registry(Put(r.editors, key, w), count, Some(w), r.tabs + [(w, key)], Some(|r.tabs|), r.nextWidget + 1))
  {
    var w := Widget(r.nextWidget);
    var t := r.tabs + [(w, key)];
    FreshWidget(r);
    assert Keys(t) == Keys(r.tabs) + [w];
    PutFreshWidget(r.editors, key, w, Keys(r.tabs));
  }

  /** A registered editor has a tab, so some tab is selected. */
  lemma EditorHasTab(r: Registry, name: string)
    requires Valid(r) && name in Keys(r.editors)
    ensures Get(r.editors, name).Some?
    ensures Get(r.editors, name).value in Keys(r.tabs)
    ensures r.selected.Some?
  {
    var p := IndexOf(r.editors, name);
    assert r.editors[p].1 in Keys(r.tabs);
  }

  /** What `close_editor` leaves, and whether it ended in an `IndexError`
      (raised after the tab was selected but before `sql_text` moved). */
  datatype Closing = Closing(registry: Registry, raised: bool)

  /** `max(0, index - 1)`: the tab selected after closing the one at
      `index`. */
  function Neighbour(index: nat): (n: nat)
    ensures index == 0 ==> n == 0
    ensures index > 0 ==> n + 1 == index
  {
    if index - 1 > 0 then index - 1 else 0
  }

  /** `close_editor(name)`. An unknown name does nothing. Otherwise the
      editor's tab is forgotten and its entry deleted. If editors remain,
      the tab before the closed one's position (or the first) is selected
      and `sql_text` becomes the editor at that position of the dict; if
      the dict is shorter than that, the lookup raises. If none remain, a
      fresh unnamed editor is created. */
  function CloseEditor(r: Registry, name: string): (c: Closing)
    requires Valid(r)
    ensures name !in Keys(r.editors) ==> c == Closing(r, false)
    ensures name in Keys(r.editors) ==>
              var w := Get(r.editors, name).value;
              var rest := Remove(r.editors, name);
              var at := Neighbour(r.selected.value);
              && (c.raised <==> rest != [] && at >= |rest|)
              && (rest != [] ==>
                    && c.registry.editors == rest
                    && c.registry.tabs == Remove(r.tabs, w)
                    && c.registry.selected == Some(at)
                    && c.registry.current == if at < |rest| then Some(rest[at].1) else r.current)
              && (rest == [] ==>
                    c.registry == CreateSqlEditor(r.(editors := [], tabs := Remove(r.tabs, w), selected := None),
                                                  None).registry)
  {
    if name !in Keys(r.editors) then Closing(r, false)
    else
      var w := Get(r.editors, name).value;
      EditorHasTab(r, name);
      var index := r.selected.value;
      var tabs := Remove(r.tabs, w);
      var rest := Remove(r.editors, name);
      CloseKeepsValid(r, name);
      if rest != [] then
        var at := Neighbour(index);
        if at < |tabs| then
          if at < |rest| then
            Closing(r.(editors := rest, tabs := tabs, selected := Some(at), current := Some(rest[at].1)), false)
          else
            Closing(r.(editors := rest, tabs := tabs, selected := Some(at)), true)
        else
          assert false; Closing(r, false)
      else
        var created := CreateSqlEditor(r.(editors := rest, tabs := tabs, selected := None), None);
        Closing(created.registry, false)
  }

  /** Closing a registered editor leaves a valid registry that still has an
      editor and no longer shows the closed editor's tab; when the last
      editor closes, its replacement takes the next automatic name. */
  lemma CloseEditorValid(r: Registry, name: string)
    requires Valid(r) && name in Keys(r.editors)
    ensures var c := CloseEditor(r, name);
            && Valid(c.registry)
            && c.registry.editors != []
            && Get(r.editors, name).value !in Keys(c.registry.tabs)
            && (Remove(r.editors, name) == [] ==>
                  && |c.registry.editors| == 1
                  && c.registry.editors[0].0 == AutoName(r.editorCount + 1)
                  && c.registry.editorCount == r.editorCount + 1)
  {
    CloseKeepsValid(r, name);
    if Remove(r.editors, name) == [] {
      CloseLastValid(r, name);
    } else {
      var c := CloseEditor(r, name);
      assert c.registry.editors == Remove(r.editors, name);
    }
  }

  /** `CloseEditorValid` when the last editor closes. */
  lemma CloseLastValid(r: Registry, name: string)
    requires Valid(r) && name in Keys(r.editors) && Remove(r.editors, name) == []
    ensures var c := CloseEditor(r, name);
            && Valid(c.registry)
            && |c.registry.editors| == 1
            && c.registry.editors[0].0 == AutoName(r.editorCount + 1)
            && c.registry.editorCount == r.editorCount + 1
            && Get(r.editors, name).value !in Keys(c.registry.tabs)
  {
    CloseKeepsValid(r, name);
    var w := Get(r.editors, name).value;
    var r1 := r.(editors := [], tabs := Remove(r.tabs, w), selected := None);
    assert Consistent(r1);
    CreateValid(r1, None);
    CreateIntoEmpty(r1);
    var c := CreateSqlEditor(r1, None);
    KeysSnoc(r1.tabs, c.widget, AutoName(r.editorCount + 1));
  }

  /** Creating an unnamed editor in an empty dict registers it alone. */
  lemma CreateIntoEmpty(r: Registry)
    requires r.editors == []
    ensures CreateSqlEditor(r, None).registry.editors == [(AutoName(r.editorCount + 1), Widget(r.nextWidget))]
  {
  }

  /** The facts `CloseEditor` needs: after removing a registered editor and
      its tab the bookkeeping is still consistent, its frame is gone, and
      while editors remain the guard `max(0, index - 1) < tab count` holds,
      because each remaining editor has a tab other than the closed one. */
  lemma CloseKeepsValid(r: Registry, name: string)
    requires Valid(r) && name in Keys(r.editors)
    ensures var w := Get(r.editors, name).value;
            var tabs := Remove(r.tabs, w);
            var rest := Remove(r.editors, name);
            && r.selected.Some?
            && w in Keys(r.tabs) && w !in Keys(tabs)
            && |tabs| == |r.tabs| - 1
            && Consistent(r.(editors := rest, tabs := tabs))
            && (rest != [] ==> Neighbour(r.selected.value) < |tabs|)
  {
    EditorHasTab(r, name);
    var w := Get(r.editors, name).value;
    RemoveTab(r.tabs, w, r.nextWidget);
    RemoveEditor(r.editors, name, r.tabs);
    if Remove(r.editors, name) != [] && r.selected.value == 0 {
      TwoEditorsTwoTabs(r);
    }
  }

  /** Forgetting a tab keeps frames distinct and below the bound. */
  lemma RemoveTab(tabs: Tabs, w: Widget, bound: nat)
    requires Wf(tabs) && w in Keys(tabs)
    requires forall i :: 0 <= i < |tabs| ==> tabs[i].0.id < bound
    ensures var rest := Remove(tabs, w);
            && Wf(rest) && w !in Keys(rest) && |rest| == |tabs| - 1
            && forall i :: 0 <= i < |rest| ==> rest[i].0.id < bound
  {
    RemoveShape(tabs, w);
    RemoveWf(tabs, w);
    var q := IndexOf(tabs, w);
    var rest := Remove(tabs, w);
    forall i | 0 <= i < |rest| ensures rest[i].0.id < bound {
      assert rest[i] == tabs[if i < q then i else i + 1];
    }
  }

  /** Deleting an editor keeps names and widgets distinct, and each
      remaining editor keeps a tab once the deleted one's tab is gone. */
  lemma RemoveEditor(d: Dict<string, Widget>, name: string, tabs: Tabs)
    requires Wf(d) && DistinctWidgets(d) && name in Keys(d) && Wf(tabs)
    requires forall i :: 0 <= i < |d| ==> d[i].1 in Keys(tabs)
    ensures var rest := Remove(d, name);
            && Wf(rest) && DistinctWidgets(rest)
            && forall i :: 0 <= i < |rest| ==> rest[i].1 in Keys(Remove(tabs, Get(d, name).value))
  {
    var p := IndexOf(d, name);
    var w := d[p].1;
    var rest := Remove(d, name);
    RemoveShape(d, name);
    RemoveWf(d, name);
    RemoveWf(tabs, w);
    forall i | 0 <= i < |rest| ensures rest[i].1 in Keys(Remove(tabs, w)) {
      var j := if i < p then i else i + 1;
      assert rest[i] == d[j];
      assert d[j].1 != w;
    }
    assert DistinctWidgets(rest) by {
      forall i, j | 0 <= i < j < |rest| ensures rest[i].1 != rest[j].1 {
        assert rest[i] == d[if i < p then i else i + 1];
        assert rest[j] == d[if j < p then j else j + 1];
      }
    }
  }

  /** Two editors have two different tabs. */
  lemma TwoEditorsTwoTabs(r: Registry)
    requires Consistent(r) && |r.editors| >= 2
    ensures |r.tabs| >= 2
  {
    var a := r.editors[0].1;
    var b := r.editors[1].1;
    assert a != b;
    assert a in Keys(r.tabs) && b in Keys(r.tabs);
  }

  /** `get_current_editor`: `sql_text` when some tab is selected. */
  function GetCurrentEditor(r: Registry): (e: Option<Widget>)
    ensures r.selected.None? ==> e.None?
    ensures Valid(r) ==> (e.Some? <==> r.tabs != [])
    ensures Aligned(r) && e.Some? ==> e.value in Keys(r.tabs)
    ensures Valid(r) && Synced(r) && e.Some? ==> e.value == r.tabs[r.selected.value].0
  {
    if r.selected.Some? then r.current else None
  }

  /** `get_all_editors`: every registered editor in dict order; with the
      tabs aligned, that is the notebook's order. */
  function GetAllEditors(r: Registry): (ws: seq<Widget>)
    ensures |ws| == |r.editors|
    ensures Wf(r.editors) ==> forall i :: 0 <= i < |ws| ==> Get(r.editors, r.editors[i].0) == Some(ws[i])
    ensures Aligned(r) ==> ws == Keys(r.tabs)
  {
    var ws := Values(r.editors);
    GetAllEditorsFound(r.editors);
    ws
  }

  /** Under distinct keys, the `i`th value is what its own key looks up. */
  lemma GetAllEditorsFound(d: Dict<string, Widget>)
    ensures Wf(d) ==> forall i :: 0 <= i < |d| ==> Get(d, d[i].0) == Some(d[i].1)
  {
    if Wf(d) {
      forall i | 0 <= i < |d| ensures Get(d, d[i].0) == Some(d[i].1) {
        assert Keys(d)[i] == d[i].0;
        var j := IndexOf(d, d[i].0);
        assert j == i;
      }
    }
  }

  /** `notebook.tab(current_tab, text=title)`: the selected tab's text
      changes; nothing else does, and in particular not the dict. */
  function RenameSelected(r: Registry, title: string): (r': Registry)
    ensures r.selected.None? ==> r' == r
    ensures r.selected.Some? && r.selected.value < |r.tabs| ==>
              r' == r.(tabs := r.tabs[r.selected.value := (r.tabs[r.selected.value].0, title)])
    ensures Keys(r'.tabs) == Keys(r.tabs)
    ensures Valid(r) ==> Valid(r')
    ensures Aligned(r) ==> Aligned(r')
  {
    if r.selected.Some? && r.selected.value < |r.tabs| then
      var i := r.selected.value;
      var tabs := r.tabs[i := (r.tabs[i].0, title)];
      assert Keys(tabs) == Keys(r.tabs);
      r.(tabs := tabs)
    else r
  }

  /** A click on the notebook tab at `index`: that tab becomes the
      selected one and nothing else changes. In particular `sql_text`, and
      so the editor that execute and save use, stays what it was, since no
      handler listens for tab changes. A position past the last tab cannot
      be clicked and changes nothing. */
  function SelectTab(r: Registry, index: nat): (r': Registry)
    ensures index < |r.tabs| ==> r'.selected == Some(index)
    ensures index >= |r.tabs| ==> r' == r
    ensures r'.editors == r.editors && r'.tabs == r.tabs && r'.current == r.current
    ensures r'.editorCount == r.editorCount && r'.nextWidget == r.nextWidget
    ensures Valid(r) ==> Valid(r') && GetCurrentEditor(r') == GetCurrentEditor(r)
    ensures Aligned(r) ==> Aligned(r')
  {
    if index < |r.tabs| then r.(selected := Some(index)) else r
  }

  /** The editor on display: the text widget of the selected tab. The
      notebook moves the keyboard focus into a tab when it is shown, so
      this is the widget that receives typing, whether or not it is
      `sql_text`. */
  function DisplayedEditor(r: Registry): (w: Option<Widget>)
    ensures w.Some? <==> r.selected.Some? && r.selected.value < |r.tabs|
    ensures w.Some? ==> (w.value, r.tabs[r.selected.value].1) in r.tabs
  {
    if r.selected.Some? && r.selected.value < |r.tabs| then Some(r.tabs[r.selected.value].0) else None
  }

  /** While `sql_text` is in step with the selection, the editor on
      display is the current editor; a click that breaks the step makes
      them differ. */
  lemma DisplayedIsCurrent(r: Registry)
    requires Valid(r)
    ensures Synced(r) <==> DisplayedEditor(r) == GetCurrentEditor(r)
  {
  }

  /** Creating an editor selects its tab and makes it `sql_text`. */
  lemma CreateSyncs(r: Registry, name: Option<string>)
    ensures Synced(CreateSqlEditor(r, name).registry)
  {
  }

  /** Closing a registered editor on aligned tabs selects a tab and makes
      its editor `sql_text`. */
  lemma CloseSyncs(r: Registry, name: string)
    requires Aligned(r) && name in Keys(r.editors)
    ensures Synced(CloseEditor(r, name).registry)
  {
    if Remove(r.editors, name) != [] {
      CloseKeepsValid(r, name);
      ClosePaired(r, name);
      var rest := Remove(r.editors, name);
      var tabs := Remove(r.tabs, Get(r.editors, name).value);
      var at := Neighbour(r.selected.value);
      assert Values(rest)[at] == rest[at].1 && Keys(tabs)[at] == tabs[at].0;
    } else {
      var w := Get(r.editors, name).value;
      CreateSyncs(r.(editors := [], tabs := Remove(r.tabs, w), selected := None), None);
    }
  }

  /** Renaming the selected tab keeps its editor `sql_text`. */
  lemma RenameKeepsSynced(r: Registry, title: string)
    requires Synced(r)
    ensures Synced(RenameSelected(r, title))
  {
  }

  /** A click on another tab leaves `sql_text` behind: with two unnamed
      editors and the second one current, a click on the first tab selects
      it while execute and save still use the second editor. */
  lemma ClickDesyncs()
    ensures var r := SelectTab(TwoAuto, 0);
            && Aligned(r) && !Synced(r)
            && GetCurrentEditor(r) == Some(Widget(1))
            && r.tabs[r.selected.value].0 == Widget(0)
  {
    assert Keys(TwoAuto.tabs) == [Widget(0), Widget(1)];
    assert Values(TwoAuto.editors) == [Widget(0), Widget(1)];
    assert AutoName(1) != AutoName(2) by {
      AutoNameInjective(1, 2);
    }
  }

  /** The text of the selected tab, if a tab is selected. */
  function SelectedTitle(r: Registry): Option<string>
    requires Valid(r)
  {
    if r.selected.Some? then Some(r.tabs[r.selected.value].1) else None
  }

  /** `close_current_editor` (Ctrl-W): close the editor registered under the
      selected tab's text. */
  function CloseCurrentEditor(r: Registry): (c: Closing)
    requires Valid(r)
    ensures r.selected.None? ==> c == Closing(r, false)
    ensures r.selected.Some? ==> c == CloseEditor(r, r.tabs[r.selected.value].1)
  {
    match SelectedTitle(r)
    case None => Closing(r, false)
    case Some(title) => CloseEditor(r, title)
  }

  /** Creating under a new name keeps the tabs aligned with the dict,
      whatever `sql_text` was before: the new editor replaces it. */
  lemma CreateKeepsAligned(r: Registry, name: Option<string>)
    requires Valid(r) && Keys(r.tabs) == Values(r.editors) && EditorKey(r, name) !in Keys(r.editors)
    ensures Aligned(CreateSqlEditor(r, name).registry)
  {
    CreateValid(r, name);
    var c := CreateSqlEditor(r, name);
    var key := EditorKey(r, name);
    var w := Widget(r.nextWidget);
    assert c.widget == w && c.registry.editors == r.editors + [(key, w)];
    KeysSnoc(r.editors, key, w);
    KeysSnoc(r.tabs, w, key);
  }

  /** On aligned tabs `close_editor` never raises and keeps them aligned:
      the closed editor and its tab sit at the same position, so the dict
      and the notebook shrink alike. */
  lemma CloseKeepsAligned(r: Registry, name: string)
    requires Aligned(r)
    ensures !CloseEditor(r, name).raised
    ensures Aligned(CloseEditor(r, name).registry)
  {
    if name in Keys(r.editors) {
      if Remove(r.editors, name) == [] {
        CloseLastAligned(r, name);
      } else {
        CloseOtherAligned(r, name);
      }
    }
  }

  /** Closing a registered editor removes entries at the same position of
      the dict and the notebook. */
  lemma ClosePaired(r: Registry, name: string)
    requires Aligned(r) && name in Keys(r.editors)
    ensures var w := Get(r.editors, name).value;
            Keys(Remove(r.tabs, w)) == Values(Remove(r.editors, name))
  {
    CloseKeepsValid(r, name);
    SamePosition(r, name);
    RemovePaired(r.editors, r.tabs, name, Get(r.editors, name).value);
  }

  /** `CloseKeepsAligned` when the last editor closes: the notebook is
      empty too, and the replacement editor is aligned. */
  lemma CloseLastAligned(r: Registry, name: string)
    requires Aligned(r) && name in Keys(r.editors) && Remove(r.editors, name) == []
    ensures !CloseEditor(r, name).raised
    ensures Aligned(CloseEditor(r, name).registry)
  {
    var w := Get(r.editors, name).value;
    var r1 := r.(editors := [], tabs := Remove(r.tabs, w), selected := None);
    EmptiedAligned(r, name);
    CreateKeepsAligned(r1, None);
  }

  /** Once the last editor and its tab are gone, the emptied registry,
      before its replacement editor, is valid and has no tab left. */
  lemma EmptiedAligned(r: Registry, name: string)
    requires Aligned(r) && name in Keys(r.editors) && Remove(r.editors, name) == []
    ensures var r1 := r.(editors := [], tabs := Remove(r.tabs, Get(r.editors, name).value), selected := None);
            Valid(r1) && Keys(r1.tabs) == Values(r1.editors)
  {
    CloseKeepsValid(r, name);
    ClosePaired(r, name);
    var tabs := Remove(r.tabs, Get(r.editors, name).value);
    assert |Keys(tabs)| == |Values(Remove(r.editors, name))| == 0;
    assert Consistent(r.(editors := Remove(r.editors, name), tabs := tabs));
  }

  /** `CloseKeepsAligned` while editors remain: the neighbour position is
      inside the shrunken dict, and `sql_text` becomes its editor. */
  lemma CloseOtherAligned(r: Registry, name: string)
    requires Aligned(r) && name in Keys(r.editors) && Remove(r.editors, name) != []
    ensures !CloseEditor(r, name).raised
    ensures Aligned(CloseEditor(r, name).registry)
  {
    CloseKeepsValid(r, name);
    CloseEditorValid(r, name);
    ClosePaired(r, name);
    var rest := Remove(r.editors, name);
    var at := Neighbour(r.selected.value);
    assert Values(rest)[at] == rest[at].1;
  }

  /** With aligned tabs an editor and its tab sit at the same position. */
  lemma SamePosition(r: Registry, name: string)
    requires Aligned(r) && name in Keys(r.editors)
    ensures Get(r.editors, name).value in Keys(r.tabs)
    ensures IndexOf(r.tabs, Get(r.editors, name).value) == IndexOf(r.editors, name)
  {
    var w := Get(r.editors, name).value;
    var p := IndexOf(r.editors, name);
    assert Values(r.editors)[p] == w;
    assert Keys(r.tabs)[p] == w;
  }

  /** The registry after the start-up editor. */
  lemma FirstEditor()
    ensures CreateSqlEditor(Empty, None)
         == Created(Registry([(AutoName(1), Widget(0))], 1, Some(Widget(0)),
                             [(Widget(0), AutoName(1))], Some(0), 1),
                    Widget(0))
  {
  }

  /** Reusing a name breaks the alignment, and closing that name then
      raises: after `SQL Editor 1` and two editors both named `x`, the dict
      holds two editors but the notebook three tabs, and closing `x` selects
      the second tab but finds no second dict entry. */
  lemma ReusedNameRaises()
    ensures var a := CreateSqlEditor(Empty, None).registry;
            var b := CreateSqlEditor(a, Some("x")).registry;
            var c := CreateSqlEditor(b, Some("x")).registry;
            && |c.editors| == 2 && |c.tabs| == 3
            && Valid(c) && !Aligned(c)
            && CloseEditor(c, "x").raised
  {
    FirstEditor();
    assert AutoName(1) != "x" by {
      assert AutoName(1)[0] != "x"[0];
    }
    SecondNamedX();
    ThirdNamedX();
    ReusedXShape(ReusedX);
    ClosingReusedName(ReusedX);
  }

  /** The registry of `ReusedNameRaises` before the second `x`. */
  const OneX: Registry :=
    Registry([(AutoName(1), Widget(0)), ("x", Widget(1))], 1, Some(Widget(1)),
             [(Widget(0), AutoName(1)), (Widget(1), "x")], Some(1), 2)

  /** The registry of `ReusedNameRaises` after the second `x`. */
  const ReusedX: Registry :=
    Registry([(AutoName(1), Widget(0)), ("x", Widget(2))], 1, Some(Widget(2)),
             [(Widget(0), AutoName(1)), (Widget(1), "x"), (Widget(2), "x")], Some(2), 3)

  /** The second creation step of `ReusedNameRaises`. */
  lemma SecondNamedX()
    requires AutoName(1) != "x"
    ensures CreateSqlEditor(CreateSqlEditor(Empty, None).registry, Some("x")).registry == OneX
  {
    FirstEditor();
    PutNamedX();
  }

  /** The dict step of `SecondNamedX`. */
  lemma PutNamedX()
    requires AutoName(1) != "x"
    ensures Put([(AutoName(1), Widget(0))], "x", Widget(1)) == OneX.editors
  {
    var d: Dict<string, Widget> := [(AutoName(1), Widget(0))];
    assert d[1..] == [];
  }

  /** The third creation step of `ReusedNameRaises`: `x` is replaced in
      place, its first tab stays. */
  lemma ThirdNamedX()
    ensures CreateSqlEditor(OneX, Some("x")).registry == ReusedX
  {
    assert Keys(OneX.editors)[1] == "x";
    PutPresent(OneX.editors, "x", Widget(2));
  }

  /** The registry of `ReusedNameRaises` is consistent but not aligned. */
  lemma ReusedXShape(c: Registry)
    requires c == ReusedX
    requires AutoName(1) != "x"
    ensures |c.editors| == 2 && |c.tabs| == 3
    ensures Valid(c) && !Aligned(c)
  {
    assert |Keys(c.tabs)| != |Values(c.editors)|;
    assert Keys(c.tabs)[0] == Widget(0) && Keys(c.tabs)[2] == Widget(2);
  }

  /** The closing step of `ReusedNameRaises`. */
  lemma ClosingReusedName(c: Registry)
    requires c == ReusedX
    requires AutoName(1) != "x"
    ensures Valid(c) && CloseEditor(c, "x").raised
  {
    ReusedXShape(c);
    assert Keys(c.editors)[1] == "x";
    assert Get(c.editors, "x") == Some(Widget(2));
    RemoveShape(c.editors, "x");
    assert Remove(c.editors, "x") == [(AutoName(1), Widget(0))];
    assert Keys(c.tabs)[2] == Widget(2);
    RemoveShape(c.tabs, Widget(2));
    assert |Remove(c.tabs, Widget(2))| == 2;
  }

  /** Every registered name is an automatic one the counter has already
      handed out, so the next automatic name is free. */
  ghost predicate AutoKeys(r: Registry) {
    AllAuto(Keys(r.editors), r.editorCount)
  }

  /** `k` is one of the first `count` automatic names. */
  ghost predicate IsAuto(k: string, count: nat) {
    exists n :: 1 <= n <= count && k == AutoName(n)
  }

  /** Every name in `keys` is one of the first `count` automatic names. */
  ghost predicate AllAuto(keys: seq<string>, count: nat) {
    forall i :: 0 <= i < |keys| ==> IsAuto(keys[i], count)
  }

  /** Handing out the next automatic name keeps `AllAuto`. */
  lemma AllAutoSnoc(keys: seq<string>, count: nat)
    requires AllAuto(keys, count)
    ensures AllAuto(keys + [AutoName(count + 1)], count + 1)
  {
    var ks := keys + [AutoName(count + 1)];
    forall i | 0 <= i < |ks| ensures IsAuto(ks[i], count + 1) {
      if i < |keys| {
        var n :| 1 <= n <= count && keys[i] == AutoName(n);
        assert 1 <= n <= count + 1 && ks[i] == AutoName(n);
      } else {
        assert ks[i] == AutoName(count + 1);
      }
    }
  }

  /** Fewer names keep `AllAuto`. */
  lemma AllAutoSubset(keys: seq<string>, sub: seq<string>, count: nat)
    requires AllAuto(keys, count)
    requires forall k :: k in sub ==> k in keys
    ensures AllAuto(sub, count)
  {
    forall i | 0 <= i < |sub| ensures IsAuto(sub[i], count) {
      assert sub[i] in keys;
      var j :| 0 <= j < |keys| && keys[j] == sub[i];
    }
  }

  /** The registry as the application uses it: only unnamed editors are
      ever created, at least one editor exists, and the tabs are aligned. */
  ghost predicate Ready(r: Registry) {
    Aligned(r) && AutoKeys(r) && r.editors != []
  }

  /** The next automatic name is not yet registered. */
  lemma NextAutoNameFree(r: Registry)
    requires AutoKeys(r)
    ensures AutoName(r.editorCount + 1) !in Keys(r.editors)
  {
    var keys := Keys(r.editors);
    if AutoName(r.editorCount + 1) in keys {
      var i :| 0 <= i < |keys| && keys[i] == AutoName(r.editorCount + 1);
      var n :| 1 <= n <= r.editorCount && keys[i] == AutoName(n);
      AutoNameInjective(n, r.editorCount + 1);
    }
  }

  /** An unnamed creation keeps every name automatic. */
  lemma CreateKeepsAutoKeys(r: Registry)
    requires AutoKeys(r)
    ensures AutoKeys(CreateSqlEditor(r, None).registry)
    ensures CreateSqlEditor(r, None).registry.editors != []
  {
    NextAutoNameFree(r);
    var key := AutoName(r.editorCount + 1);
    var c := CreateSqlEditor(r, None);
    assert c.registry.editors == r.editors + [(key, c.widget)];
    KeysSnoc(r.editors, key, c.widget);
    AllAutoSnoc(Keys(r.editors), r.editorCount);
  }

  /** An unnamed creation keeps the registry ready. */
  lemma CreateKeepsReady(r: Registry)
    requires Aligned(r) && AutoKeys(r)
    ensures Ready(CreateSqlEditor(r, None).registry)
  {
    NextAutoNameFree(r);
    CreateKeepsAligned(r, None);
    CreateKeepsAutoKeys(r);
  }

  /** The first editor, created at start-up, leaves the registry ready. */
  lemma InitialEditorReady()
    ensures Ready(CreateSqlEditor(Empty, None).registry)
  {
    CreateKeepsReady(Empty);
  }

  /** Closing keeps every name automatic. */
  lemma CloseKeepsAutoKeys(r: Registry, name: string)
    requires Valid(r) && AutoKeys(r)
    ensures AutoKeys(CloseEditor(r, name).registry)
  {
    if name in Keys(r.editors) {
      var w := Get(r.editors, name).value;
      var rest := Remove(r.editors, name);
      RemoveWf(r.editors, name);
      if rest == [] {
        CreateKeepsAutoKeys(r.(editors := [], tabs := Remove(r.tabs, w), selected := None));
      } else {
        AllAutoSubset(Keys(r.editors), Keys(rest), r.editorCount);
      }
    }
  }

  /** Closing any name keeps the registry ready, so the application never
      meets the `IndexError` and always has an editor. */
  lemma CloseKeepsReady(r: Registry, name: string)
    requires Ready(r)
    ensures !CloseEditor(r, name).raised
    ensures Ready(CloseEditor(r, name).registry)
  {
    CloseKeepsAligned(r, name);
    CloseKeepsAutoKeys(r, name);
    if name in Keys(r.editors) {
      CloseEditorValid(r, name);
    }
  }

  /** Renaming the selected tab keeps the registry ready. */
  lemma RenameKeepsReady(r: Registry, title: string)
    requires Ready(r)
    ensures Ready(RenameSelected(r, title))
  {
  }

  /** Ctrl-W after the selected tab was given a text that names no editor
      (as opening or saving a file does) leaves everything as it was. */
  lemma RenamedCloseIsNoop(r: Registry, title: string)
    requires Valid(r) && r.selected.Some? && title !in Keys(r.editors)
    ensures CloseCurrentEditor(RenameSelected(r, title)) == Closing(RenameSelected(r, title), false)
  {
  }

  /** Ctrl-W on a tab whose text is another editor's name closes that other
      editor: with `SQL Editor 1` and `SQL Editor 2` open and the second
      tab's text set to `SQL Editor 1`, the first editor goes and the
      renamed second tab stays. */
  lemma RenamedCloseHitsNamesake()
    ensures var a := CreateSqlEditor(CreateSqlEditor(Empty, None).registry, None).registry;
            var b := RenameSelected(a, AutoName(1));
            Valid(b) &&
            var c := CloseCurrentEditor(b);
            && !c.raised
            && c.registry.editors == [(AutoName(2), Widget(1))]
            && c.registry.tabs == [(Widget(1), AutoName(1))]
  {
    FirstEditor();
    AutoNameInjective(1, 2);
    SecondAutoEditor();
    ClosingNamesake(RenameSelected(TwoAuto, AutoName(1)));
  }

  /** Two unnamed editors, the second one selected. */
  const TwoAuto: Registry :=
    Registry([(AutoName(1), Widget(0)), (AutoName(2), Widget(1))], 2, Some(Widget(1)),
             [(Widget(0), AutoName(1)), (Widget(1), AutoName(2))], Some(1), 2)

  /** The second creation step of `RenamedCloseHitsNamesake`. */
  lemma SecondAutoEditor()
    requires AutoName(1) != AutoName(2)
    ensures CreateSqlEditor(CreateSqlEditor(Empty, None).registry, None).registry == TwoAuto
  {
    FirstEditor();
    PutSecondAuto();
  }

  /** The dict step of `SecondAutoEditor`. */
  lemma PutSecondAuto()
    requires AutoName(1) != AutoName(2)
    ensures Put([(AutoName(1), Widget(0))], AutoName(2), Widget(1)) == TwoAuto.editors
  {
    var d: Dict<string, Widget> := [(AutoName(1), Widget(0))];
    assert d[1..] == [];
  }

  /** The closing step of `RenamedCloseHitsNamesake`. */
  lemma ClosingNamesake(b: Registry)
    requires AutoName(1) != AutoName(2)
    requires b == RenameSelected(TwoAuto, AutoName(1))
    ensures Valid(b)
    ensures var c := CloseCurrentEditor(b);
            && !c.raised
            && c.registry.editors == [(AutoName(2), Widget(1))]
            && c.registry.tabs == [(Widget(1), AutoName(1))]
  {
    RenamedTwoAutoValid(b);
    assert b.tabs == [(Widget(0), AutoName(1)), (Widget(1), AutoName(1))];
    assert Keys(b.editors)[0] == AutoName(1);
    RemoveShape(b.editors, AutoName(1));
    assert Keys(b.tabs)[0] == Widget(0);
    RemoveShape(b.tabs, Widget(0));
  }

  /** The registry of `RenamedCloseHitsNamesake` before Ctrl-W is valid. */
  lemma RenamedTwoAutoValid(b: Registry)
    requires AutoName(1) != AutoName(2)
    requires b == RenameSelected(TwoAuto, AutoName(1))
    ensures Valid(b)
  {
    assert Keys(TwoAuto.tabs) == [Widget(0), Widget(1)];
  }
}
