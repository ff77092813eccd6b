/** The tabs of all connections and the one view of them: when what is shown is not what the shown connection has. */
module TabsStore {
  import opened OpenTabs

  /** What the store shows, as far as it follows from tabs. */
  datatype View = View(
    openTabs: seq<Tab>, activeTabIndex: nat, viewMode: Mode,
    openTables: seq<TableId>, activeTableTabIndex: nat,
    selectedDatabase: Option<Name>, selectedTable: Option<Name>,
    tableStructure: Option<string>, selectedTableInfo: Option<string>,
    infos: map<TableId, string>)

  const EMPTY := ConnState([], 0, TabMode, [], 0, map[], map[], None, None, None, None)

  datatype Store = Store(active: Option<Name>, states: map<Name, ConnState>, view: View)

  /** What a connection that is shown is shown as. */
  function Shown(s: ConnState): View {
    var d := Derived(s);
    View(d.openTabs, d.activeTabIndex, d.viewMode, d.openTables, d.activeTableTabIndex, d.selectedDatabase,
         d.selectedTable,
         d.tableStructure, d.selectedTableInfo, d.infos)
  }

  function StateOf(st: Store, conn: Name): ConnState {
    if conn in st.states then st.states[conn] else EMPTY
  }

  /** What should be shown. */
  function Due(st: Store): View {
    Shown(if st.active.Some? then StateOf(st, st.active.value) else EMPTY)
  }

  predicate InSync(st: Store) { st.view == Due(st) }

  /** Changes of one connection; drops and renames are the moment at which their last read is applied. */
  datatype Change =
    | OpenTables(entries: seq<TableId>)
    | SelectDatabase(database: Name)
    | Rename(database: Name, from: Name, to: Name, structure: Option<string>, info: Option<string>, blank: string)
    | OpenSql(id: Name)
    | Switch(index: int)
    | Close(index: int)
    | Drop(database: Name, table: Name)
    | DropAll(database: Name)

  datatype Action = Do(conn: Name, change: Change) | Connect(conn: Name) | Remove(conn: Name) | Reset

  /** Nothing to open, or no such tab. */
  predicate Ignored(st: Store, conn: Name, change: Change) {
    match change
    case OpenTables(entries) => entries == []
    case Switch(index) => conn !in st.states || index < 0 || index >= |st.states[conn].openTabs|
    case Close(index) => conn !in st.states || index < 0 || index >= |st.states[conn].openTabs|
    case _ => false
  }

  function Changed(s: ConnState, change: Change): ConnState {
    match change
    case OpenTables(entries) => AllOpened(s, entries)
    case SelectDatabase(d) =>
      s.(selectedDatabase := Some(d), selectedTable := None, tableStructure := None, selectedTableInfo := None,
         viewMode := Overview)
    case Rename(d, from, to, structure, info, blank) => RenameTable(s, d, from, to, structure, info, blank)
    case OpenSql(id) => OpenSqlTab(s, id)
    case Switch(index) => SwitchTab(s, index)
    case Close(index) => CloseTab(s, index)
    case Drop(d, t) => DropTable(s, d, t)
    case DropAll(d) => DropDatabase(s, d)
  }

  /** The fields a change writes into the view whatever connection is shown; `s` is the state before it. */
  function Spilled(v: View, s: ConnState, change: Change): View {
    var r := Changed(s, change);
    match change
    case OpenTables(_) => v
    case SelectDatabase(_) => v
    case Rename(_, _, _, _, _, _) => v
    case OpenSql(_) => v.(openTabs := r.openTabs, activeTabIndex := r.activeTabIndex, viewMode := TabMode)
    case Switch(_) =>
      v.(activeTabIndex := r.activeTabIndex, viewMode := TabMode, openTables := r.openTables,
         activeTableTabIndex := r.activeTableTabIndex,
         selectedDatabase := r.selectedDatabase, selectedTable := r.selectedTable,
         tableStructure := r.tableStructure, selectedTableInfo := r.selectedTableInfo)
    case Close(index) =>
      v.(openTabs := r.openTabs,
         activeTabIndex := if 0 <= index < |s.openTabs| then Closing(s, index).activeTabIndex else s.activeTabIndex,
         openTables := r.openTables, activeTableTabIndex := r.activeTableTabIndex,
         selectedDatabase := r.selectedDatabase, selectedTable := r.selectedTable,
         tableStructure := r.tableStructure, selectedTableInfo := r.selectedTableInfo)
    case Drop(_, _) => v.(openTabs := r.openTabs, openTables := r.openTables, activeTabIndex := r.activeTabIndex)
    case DropAll(_) => v.(openTabs := r.openTabs, openTables := r.openTables, activeTabIndex := r.activeTabIndex)
  }

  function Applied(st: Store, conn: Name, change: Change): Store {
    if Ignored(st, conn, change) then st
    else
      var s := StateOf(st, conn);
      var r := Changed(s, change);
      Store(st.active, st.states[conn := r], if st.active == Some(conn) then Shown(r) else Spilled(st.view, s, change))
  }

  function Step(st: Store, action: Action): Store {
    match action
    case Do(conn, change) => Applied(st, conn, change)
    case Connect(conn) => Store(Some(conn), st.states, Shown(StateOf(st, conn)))
    case Remove(conn) =>
      if st.active == Some(conn) then Store(None, st.states - {conn}, Shown(EMPTY))
      else st.(states := st.states - {conn})
    case Reset => Store(None, map[], Shown(EMPTY))
  }

  function Run(actions: seq<Action>): Store {
    if actions == [] then Store(None, map[], Shown(EMPTY))
    else Step(Run(actions[..|actions| - 1]), actions[|actions| - 1])
  }

  // ---- when the view is that of the shown connection ----

  /** Changes that write into the view of whatever connection is shown. */
  predicate Spills(change: Change) {
    change.OpenSql? || change.Switch? || change.Close? || change.Drop? || change.DropAll?
  }

  /** A change of the shown connection brings the view in line, whatever was shown before. */
  lemma ShownChangeSyncs(st: Store, conn: Name, change: Change)
    requires st.active == Some(conn) && !Ignored(st, conn, change)
    ensures InSync(Applied(st, conn, change))
  {
    hide Changed, Shown, Spilled;
  }

  /** Any other change leaves the view right exactly when the fields it writes have the values they had. */
  lemma OtherChangeSyncIff(st: Store, conn: Name, change: Change)
    requires st.active != Some(conn) && InSync(st) && !Ignored(st, conn, change)
    ensures InSync(Applied(st, conn, change)) <==> Spilled(st.view, StateOf(st, conn), change) == st.view
    ensures !Spills(change) ==> InSync(Applied(st, conn, change))
  {
    hide Changed, Shown;
  }

  /** For a drop: when the tabs that are left there, and their index, are those shown here. */
  lemma DropElsewhereIff(st: Store, conn: Name, d: Name, t: Name)
    requires st.active != Some(conn) && InSync(st)
    ensures var s := StateOf(st, conn);
            InSync(Applied(st, conn, Drop(d, t))) <==>
              && st.view.openTabs == Remaining(s.openTabs, IsTable(d, t))
              && st.view.openTables == TablesOf(Remaining(s.openTabs, IsTable(d, t)))
              && st.view.activeTabIndex == DropTableIndex(s.openTabs, s.activeTabIndex, IsTable(d, t))
  {
    OtherChangeSyncIff(st, conn, Drop(d, t));
    DroppedTabs(StateOf(st, conn), d, t);
    hide Applied, InSync, DropTable, StateOf, Remaining, TablesOf, DropTableIndex;
  }

  lemma DropAllElsewhereIff(st: Store, conn: Name, d: Name)
    requires st.active != Some(conn) && InSync(st)
    ensures var s := StateOf(st, conn);
            InSync(Applied(st, conn, DropAll(d))) <==>
              && st.view.openTabs == Remaining(s.openTabs, InDatabase(d))
              && st.view.openTables == TablesOf(Remaining(s.openTabs, InDatabase(d)))
              && st.view.activeTabIndex == DroppedIndex(s.openTabs, s.activeTabIndex, InDatabase(d))
  {
    OtherChangeSyncIff(st, conn, DropAll(d));
    DroppedDatabaseTabs(StateOf(st, conn), d);
    hide Applied, InSync, DropDatabase, StateOf, Remaining, TablesOf, DroppedIndex;
  }

  /** A step for which the view is right afterwards, given that it was before. */
  predicate Careful(st: Store, action: Action) {
    action.Do? && Spills(action.change) && !Ignored(st, action.conn, action.change) ==> st.active == Some(action.conn)
  }

  lemma CarefulSyncs(st: Store, action: Action)
    requires InSync(st) && Careful(st, action)
    ensures InSync(Step(st, action))
  {
    hide Changed, Shown, Spilled, Applied, Ignored, Spills;
    match action
    case Do(conn, change) =>
      if Ignored(st, conn, change) {
        assert Applied(st, conn, change) == st by { IgnoredStays(st, conn, change); }
      } else if st.active == Some(conn) {
        ShownChangeSyncs(st, conn, change);
      } else {
        OtherChangeSyncIff(st, conn, change);
      }
    case _ =>
  }

  lemma IgnoredStays(st: Store, conn: Name, change: Change)
    requires Ignored(st, conn, change)
    ensures Applied(st, conn, change) == st
  {
  }

  /** Where such changes are made of the shown connection only, what is shown is what it has, all along. */
  lemma {:induction false} CarefulRun(actions: seq<Action>)
    requires forall i | 0 <= i < |actions| :: Careful(Run(actions[..i]), actions[i])
    ensures InSync(Run(actions))
  {
    hide Step, Careful, Shown;
    if actions != [] {
      var init, last := actions[..|actions| - 1], actions[|actions| - 1];
      forall i | 0 <= i < |init| ensures Careful(Run(init[..i]), init[i]) {
        assert init[..i] == actions[..i];
        assert Careful(Run(actions[..i]), actions[i]);
      }
      CarefulRun(init);
      assert Careful(Run(init), last) by { assert Careful(Run(actions[..|init|]), actions[|init|]); }
      CarefulSyncs(Run(init), last);
    }
  }

  // ---- a drop that ends after another connection is shown ----

  function Dropping(a: Name, b: Name, x: TableId, y: TableId): seq<Action> {
    [Connect(a), Do(a, OpenTables([x])), Connect(b), Do(b, OpenTables([y])), Do(a, Drop(x.0, x.1))]
  }

  lemma {:induction false} OpenOne(x: TableId)
    ensures var r := AllOpened(EMPTY, [x]);
            r.openTabs == [TableTab(x.0, x.1)] && r.openTables == [x] && r.activeTabIndex == 0 && r.viewMode == TabMode
    ensures Derived(AllOpened(EMPTY, [x])) == AllOpened(EMPTY, [x])
  {
    assert [x][..0] == [];
    assert Opened([], 0, [x]) == ([] + [TableTab(x.0, x.1)], 0);
    assert TablesOf([TableTab(x.0, x.1)]) == [x] by { assert [TableTab(x.0, x.1)][1..] == []; }
  }

  lemma {:induction false} DropOne(s: ConnState, x: TableId)
    requires s.openTabs == [TableTab(x.0, x.1)]
    ensures DropTable(s, x.0, x.1).openTabs == [] && DropTable(s, x.0, x.1).openTables == []
  {
    assert [TableTab(x.0, x.1)][1..] == [];
    assert Remaining(s.openTabs, IsTable(x.0, x.1)) == [];
    hide Remaining, Lookup;
  }

  lemma OpenThere(st: Store, conn: Name, x: TableId)
    requires st.active == Some(conn) && conn !in st.states
    ensures var s := AllOpened(EMPTY, [x]);
            Step(st, Do(conn, OpenTables([x]))) == Store(st.active, st.states[conn := s], Shown(s))
  {
    hide AllOpened, Shown, Spilled;
  }

  lemma DropThere(st: Store, conn: Name, x: TableId)
    requires st.active != Some(conn) && conn in st.states && st.states[conn].openTabs == [TableTab(x.0, x.1)]
    ensures var r := Step(st, Do(conn, Drop(x.0, x.1)));
            && r.active == st.active
               && (forall c | c in st.states && c != conn :: c in r.states && r.states[c] == st.states[c])
            && r.view.openTabs == []
  {
    DropOne(st.states[conn], x);
    hide DropTable, Shown;
  }

  /** The table of `b` is open there, and no tab at all is shown. */
  lemma {:induction false} DroppedAway(a: Name, b: Name, x: TableId, y: TableId)
    requires a != b
    ensures var st := Run(Dropping(a, b, x, y));
            && st.active == Some(b) && b in st.states && st.states[b].openTabs == [TableTab(y.0, y.1)]
            && st.view.openTabs == [] && !InSync(st)
  {
    var all := Dropping(a, b, x, y);
    RunStep(all, 0);
    RunStep(all, 1);
    RunStep(all, 2);
    RunStep(all, 3);
    RunStep(all, 4);
    assert all[..0] == [] && all[..5] == all;
    assert Run(all[..0]) == Store(None, map[], Shown(EMPTY));
    hide Run, Step, InSync;
    DroppedAwaySteps(a, b, x, y, Run(all[..0]), Run(all[..1]), Run(all[..2]), Run(all[..3]), Run(all[..4]), Run(all));
  }

  lemma {:induction false} DroppedAwaySteps(a: Name, b: Name, x: TableId, y: TableId,
                                            s0: Store, s1: Store, s2: Store, s3: Store, s4: Store, s5: Store)
    requires a != b && s0.states == map[] && s1 == Step(s0, Connect(a)) && s2 == Step(s1, Do(a, OpenTables([x])))
    requires s3 == Step(s2, Connect(b)) && s4 == Step(s3, Do(b, OpenTables([y])))
             && s5 == Step(s4, Do(a, Drop(x.0, x.1)))
    ensures s5.active == Some(b) && b in s5.states && s5.states[b].openTabs == [TableTab(y.0, y.1)]
    ensures s5.view.openTabs == [] && !InSync(s5)
  {
    hide Applied, Shown, AllOpened;
    OpenThere(s1, a, x);
    OpenThere(s3, b, y);
    OpenOne(x);
    OpenOne(y);
    DropThere(s4, a, x);
    hide Step;
    assert Due(s5).openTabs == [TableTab(y.0, y.1)] by { ShownTabs(s5.states[b]); }
  }

  lemma ShownTabs(s: ConnState)
    ensures Shown(s).openTabs == s.openTabs
  {
  }

  lemma {:induction false} RunStep(actions: seq<Action>, i: nat)
    requires i < |actions|
    ensures Run(actions[..i + 1]) == Step(Run(actions[..i]), actions[i])
  {
    assert actions[..i + 1][..i] == actions[..i];
    hide Step;
  }
}
