/** The open tabs of a connection: which one is active as tabs come and go, and what the view derives from it. */
module OpenTabs {
  type Name = string
  type TableId = (Name, Name)

  datatype Option<+T> = None | Some(value: T)

  datatype Tab = TableTab(database: Name, table: Name) | SqlTab(id: Name)

  datatype Mode = TabMode | Overview

  datatype ConnState = ConnState(
    openTabs: seq<Tab>, activeTabIndex: nat, viewMode: Mode,
    openTables: seq<TableId>, activeTableTabIndex: nat,
    structures: map<TableId, string>, infos: map<TableId, string>,
    selectedDatabase: Option<Name>, selectedTable: Option<Name>,
    tableStructure: Option<string>, selectedTableInfo: Option<string>)

  // ---- lists of tabs ----

  function TablesOf(tabs: seq<Tab>): seq<TableId> {
    if tabs == [] then []
    else (match tabs[0] case TableTab(d, t) => [(d, t)] case SqlTab(_) => []) + TablesOf(tabs[1..])
  }

  /** The tabs that stay when some are removed. */
  function Remaining(tabs: seq<Tab>, gone: Tab -> bool): (r: seq<Tab>)
    ensures |r| <= |tabs|
  {
    if tabs == [] then [] else (if gone(tabs[0]) then [] else [tabs[0]]) + Remaining(tabs[1..], gone)
  }

  function FirstGone(tabs: seq<Tab>, gone: Tab -> bool): (i: nat)
    ensures i <= |tabs|
    ensures i < |tabs| ==> gone(tabs[i])
    ensures forall j | 0 <= j < i :: !gone(tabs[j])
  {
    if tabs == [] || gone(tabs[0]) then 0 else 1 + FirstGone(tabs[1..], gone)
  }

  lemma {:induction false} RemainingSplit(tabs: seq<Tab>, gone: Tab -> bool, i: nat)
    requires i <= |tabs|
    ensures Remaining(tabs, gone) == Remaining(tabs[..i], gone) + Remaining(tabs[i..], gone)
  {
    if i == 0 {
      assert tabs[..0] == [] && tabs[0..] == tabs;
    } else {
      RemainingSplit(tabs[1..], gone, i - 1);
      var head := if gone(tabs[0]) then [] else [tabs[0]];
      assert Remaining(tabs[..i], gone) == head + Remaining(tabs[..i][1..], gone);
      assert Remaining(tabs, gone) == head + Remaining(tabs[1..], gone);
      hide Remaining;
      assert tabs[..i][1..] == tabs[1..][..i - 1] && tabs[i..] == tabs[1..][i - 1..];
    }
  }

  lemma {:induction false} TablesSplit(tabs: seq<Tab>, i: nat)
    requires i <= |tabs|
    ensures TablesOf(tabs) == TablesOf(tabs[..i]) + TablesOf(tabs[i..])
  {
    if i == 0 {
      assert tabs[..0] == [] && tabs[0..] == tabs;
    } else {
      TablesSplit(tabs[1..], i - 1);
      assert tabs[..i][1..] == tabs[1..][..i - 1] && tabs[i..] == tabs[1..][i - 1..];
    }
  }

  /** Where the i-th tab stands once others are removed: after the earlier ones that stay. */
  function NewPosition(tabs: seq<Tab>, gone: Tab -> bool, i: nat): nat
    requires i <= |tabs|
  {
    |Remaining(tabs[..i], gone)|
  }

  lemma SurvivorStays(tabs: seq<Tab>, gone: Tab -> bool, i: nat)
    requires i < |tabs| && !gone(tabs[i])
    ensures NewPosition(tabs, gone, i) < |Remaining(tabs, gone)|
    ensures Remaining(tabs, gone)[NewPosition(tabs, gone, i)] == tabs[i]
  {
    RemainingSplit(tabs, gone, i);
    assert tabs[i..][0] == tabs[i];
  }

  predicate InRange(s: ConnState) {
    if s.openTabs == [] then s.activeTabIndex == 0 else s.activeTabIndex < |s.openTabs|
  }

  /** No table is open twice. */
  ghost predicate TablesDistinct(tabs: seq<Tab>) {
    forall i, j | 0 <= i < j < |tabs| :: tabs[i].TableTab? ==> tabs[i] != tabs[j]
  }

  // ---- the derived view ----

  function Lookup(m: map<TableId, string>, k: TableId): Option<string> {
    if k in m then Some(m[k]) else None
  }

  /** What the tabs and the mode say about the selection; the tree keeps its own where they say nothing. */
  function Derived(s: ConnState): ConnState {
    var tables := TablesOf(s.openTabs);
    var idx := if s.openTabs == [] then 0
               else if s.activeTabIndex < |s.openTabs| then s.activeTabIndex else |s.openTabs| - 1;
    if s.viewMode == Overview then
      s.(selectedTable := None, tableStructure := None, selectedTableInfo := None, activeTabIndex := idx,
         openTables := if s.openTabs == [] then s.openTables else tables)
    else if s.openTabs == [] then s.(openTables := [], activeTabIndex := 0, activeTableTabIndex := 0)
    else
      var shown := s.(activeTabIndex := idx, openTables := tables,
                      activeTableTabIndex := |TablesOf(s.openTabs[..idx])|);
      match s.openTabs[idx]
      case SqlTab(_) => shown
      case TableTab(d, t) =>
        shown.(selectedDatabase := Some(d), selectedTable := Some(t),
               tableStructure := Lookup(s.structures, (d, t)), selectedTableInfo := Lookup(s.infos, (d, t)))
  }

  lemma DerivedKeepsTabs(s: ConnState)
    ensures Derived(s).openTabs == s.openTabs
    ensures InRange(s) ==> Derived(s).activeTabIndex == s.activeTabIndex
  {
  }

  /** Deriving again changes nothing. */
  lemma DerivedTwice(s: ConnState)
    ensures Derived(Derived(s)) == Derived(s)
  {
  }

  /**
   In tab mode the view selects exactly the active table, with its structure and details where they are known,
   and finds it where it says among the open ones; beside a query's tab the tree keeps its selection.
   */
  lemma DerivedSelectsActive(s: ConnState)
    requires s.viewMode == TabMode && s.openTabs != []
    ensures var v := Derived(s);
            && InRange(v) && (InRange(s) ==> v.activeTabIndex == s.activeTabIndex)
            && match s.openTabs[v.activeTabIndex]
               case SqlTab(_) =>
                 && v.selectedTable == s.selectedTable && v.selectedDatabase == s.selectedDatabase
                 && v.tableStructure == s.tableStructure && v.selectedTableInfo == s.selectedTableInfo
               case TableTab(d, t) =>
                 && v.selectedDatabase == Some(d) && v.selectedTable == Some(t)
                 && (if (d, t) in s.structures then v.tableStructure == Some(s.structures[(d, t)])
                     else v.tableStructure == None)
                 && (if (d, t) in s.infos then v.selectedTableInfo == Some(s.infos[(d, t)])
                     else v.selectedTableInfo == None)
                 && v.activeTableTabIndex < |v.openTables| && v.openTables[v.activeTableTabIndex] == (d, t)
  {
    var v := Derived(s);
    TablesSplit(s.openTabs, v.activeTabIndex);
    assert s.openTabs[v.activeTabIndex..][0] == s.openTabs[v.activeTabIndex];
  }

  // ---- opening and switching ----

  function TableAt(tabs: seq<Tab>, d: Name, t: Name): nat {
    FirstGone(tabs, x => x == TableTab(d, t))
  }

  /** Tabs for a list of tables: those open are found, the others appended; the last one is active. */
  function Opened(tabs: seq<Tab>, active: nat, entries: seq<TableId>): (seq<Tab>, nat) {
    if entries == [] then (tabs, active)
    else
      var (before, _) := Opened(tabs, active, entries[..|entries| - 1]);
      var (d, t) := entries[|entries| - 1];
      var at := TableAt(before, d, t);
      if at < |before| then (before, at) else (before + [TableTab(d, t)], |before|)
  }

  function AllOpened(s: ConnState, entries: seq<TableId>): ConnState {
    var (tabs, active) := Opened(s.openTabs, s.activeTabIndex, entries);
    Derived(s.(openTabs := tabs, activeTabIndex := active, viewMode := TabMode))
  }

  method OpenTableTabs(s: ConnState, entries: seq<TableId>) returns (r: ConnState)
    ensures r == if entries == [] then s else AllOpened(s, entries)
  {
    if |entries| == 0 { return s; }
    var tabs, active := s.openTabs, s.activeTabIndex;
    for k := 0 to |entries|
      invariant (tabs, active) == Opened(s.openTabs, s.activeTabIndex, entries[..k])
    {
      assert entries[..k + 1][..k] == entries[..k];
      var (d, t) := entries[k];
      var at := TableAt(tabs, d, t);
      if at < |tabs| { active := at; } else { tabs, active := tabs + [TableTab(d, t)], |tabs|; }
    }
    assert entries[..|entries|] == entries;
    r := Derived(s.(openTabs := tabs, activeTabIndex := active, viewMode := TabMode));
  }

  /** One more table: found where it is open, or appended. */
  lemma OpenedOneMore(tabs: seq<Tab>, active: nat, init: seq<TableId>, e: TableId)
    ensures var (before, _) := Opened(tabs, active, init);
            var (r, a) := Opened(tabs, active, init + [e]);
            && |before| <= |r| && (forall i | 0 <= i < |before| :: r[i] == before[i])
            && a < |r| && r[a] == TableTab(e.0, e.1)
            && (TablesDistinct(before) ==> TablesDistinct(r))
  {
    var entries := init + [e];
    assert entries[..|entries| - 1] == init;
  }

  /** What was open stays where it was, every table asked for is open, the last one active, and none twice. */
  lemma {:induction false} OpenedTabs(tabs: seq<Tab>, active: nat, entries: seq<TableId>)
    requires entries != []
    ensures var (r, a) := Opened(tabs, active, entries);
            && |tabs| <= |r| && (forall i | 0 <= i < |tabs| :: r[i] == tabs[i])
            && (forall e | e in entries :: TableTab(e.0, e.1) in r)
            && a < |r| && r[a] == TableTab(entries[|entries| - 1].0, entries[|entries| - 1].1)
            && (TablesDistinct(tabs) ==> TablesDistinct(r))
  {
    var init, last := entries[..|entries| - 1], entries[|entries| - 1];
    assert entries == init + [last];
    if init == [] { assert Opened(tabs, active, init).0 == tabs; }
    hide Opened, TablesDistinct;
    if init != [] { OpenedTabs(tabs, active, init); }
    OpenedOneMore(tabs, active, init, last);
  }

  function SwitchTab(s: ConnState, index: int): ConnState {
    if index < 0 || index >= |s.openTabs| then s else Derived(s.(activeTabIndex := index, viewMode := TabMode))
  }

  function OpenSqlTab(s: ConnState, id: Name): ConnState {
    s.(openTabs := s.openTabs + [SqlTab(id)], activeTabIndex := |s.openTabs|, viewMode := TabMode)
  }

  // ---- closing one tab ----

  /** The index after the tab at `index` has left `tabs`. */
  function IndexAfterClose(tabs: seq<Tab>, index: nat, active: nat): nat {
    if tabs == [] then 0
    else if index < active then active - 1
    else if index == active && active >= |tabs| then |tabs| - 1
    else active
  }

  /** The state without a tab and what was cached for it, its selection that of the tab now active. */
  function Closing(s: ConnState, index: nat): ConnState
    requires index < |s.openTabs|
  {
    var tabs := s.openTabs[..index] + s.openTabs[index + 1..];
    var k := match s.openTabs[index] case TableTab(d, t) => {(d, t)} case SqlTab(_) => {};
    var active := IndexAfterClose(tabs, index, s.activeTabIndex);
    var left := s.(openTabs := tabs, activeTabIndex := active, structures := s.structures - k, infos := s.infos - k);
    if active < |tabs| && tabs[active].TableTab? then
      var t := (tabs[active].database, tabs[active].table);
      left.(selectedDatabase := Some(t.0), selectedTable := Some(t.1),
            tableStructure := Lookup(left.structures, t), selectedTableInfo := Lookup(left.infos, t))
    else left.(selectedDatabase := None, selectedTable := None, tableStructure := None, selectedTableInfo := None)
  }

  function CloseTab(s: ConnState, index: int): ConnState {
    if index < 0 || index >= |s.openTabs| then s else Derived(Closing(s, index))
  }

  /** The active tab stays active unless it is the one closed; then its neighbour is. */
  lemma CloseKeepsActive(s: ConnState, index: nat)
    requires InRange(s) && index < |s.openTabs|
    ensures var r := CloseTab(s, index);
            && InRange(r) && r.openTabs == s.openTabs[..index] + s.openTabs[index + 1..]
            && (index != s.activeTabIndex ==>
                  r.activeTabIndex == (if index < s.activeTabIndex then s.activeTabIndex - 1 else s.activeTabIndex)
                  && r.openTabs[r.activeTabIndex] == s.openTabs[s.activeTabIndex])
            && (index == s.activeTabIndex && r.openTabs != [] ==>
                  r.activeTabIndex == (if index < |r.openTabs| then index else index - 1))
            && (TablesDistinct(s.openTabs) ==> TablesDistinct(r.openTabs))
  {
    var tabs := s.openTabs[..index] + s.openTabs[index + 1..];
    DerivedKeepsTabs(Closing(s, index));
    hide Derived, Lookup;
    assert forall j | 0 <= j < |tabs| :: tabs[j] == if j < index then s.openTabs[j] else s.openTabs[j + 1];
  }

  // ---- a table is dropped ----

  function IsTable(d: Name, t: Name): Tab -> bool { x => x == TableTab(d, t) }

  /** The new index, from the first matching tab alone. */
  function DropTableIndex(tabs: seq<Tab>, active: nat, gone: Tab -> bool): nat {
    var rest := Remaining(tabs, gone);
    var at := FirstGone(tabs, gone);
    if at == |tabs| then active
    else if at < active then active - 1
    else if at == active then if rest == [] then 0 else if active < |rest| then active else |rest| - 1
    else active
  }

  function DropTable(s: ConnState, d: Name, t: Name): ConnState {
    var gone := IsTable(d, t);
    var tabs := Remaining(s.openTabs, gone);
    var active := DropTableIndex(s.openTabs, s.activeTabIndex, gone);
    var left := s.(openTabs := tabs, activeTabIndex := active, openTables := TablesOf(tabs),
                   activeTableTabIndex := |TablesOf(tabs[..if active < |tabs| then active else |tabs|])|,
                   structures := s.structures - {(d, t)}, infos := s.infos - {(d, t)});
    if active < |tabs| && tabs[active].TableTab? then
      var k := (tabs[active].database, tabs[active].table);
      left.(selectedDatabase := Some(k.0), selectedTable := Some(k.1),
            tableStructure := Lookup(left.structures, k), selectedTableInfo := Lookup(left.infos, k))
    else if s.selectedDatabase == Some(d) && s.selectedTable == Some(t) then
      left.(selectedDatabase := None, selectedTable := None, tableStructure := None, selectedTableInfo := None)
    else left
  }

  lemma {:induction false} RemainingAll(tabs: seq<Tab>, gone: Tab -> bool)
    ensures |Remaining(tabs, gone)| == |tabs| <==> forall i | 0 <= i < |tabs| :: !gone(tabs[i])
    ensures (forall i | 0 <= i < |tabs| :: !gone(tabs[i])) ==> Remaining(tabs, gone) == tabs
  {
    if tabs != [] {
      RemainingAll(tabs[1..], gone);
      assert tabs == [tabs[0]] + tabs[1..];
      assert forall i | 0 <= i < |tabs| - 1 :: tabs[1..][i] == tabs[i + 1];
    }
  }

  /** How many of the removed tabs come before a position. */
  function GoneBefore(tabs: seq<Tab>, gone: Tab -> bool, i: nat): nat
    requires i <= |tabs|
  {
    i - NewPosition(tabs, gone, i)
  }

  /** A surviving active tab stays active exactly when at most one tab of the dropped table comes before it. */
  lemma DropTableActiveIff(tabs: seq<Tab>, active: nat, gone: Tab -> bool)
    requires active < |tabs| && !gone(tabs[active])
    ensures DropTableIndex(tabs, active, gone) == NewPosition(tabs, gone, active) <==>
              GoneBefore(tabs, gone, active) <= 1
  {
    RemainingAll(tabs[..active], gone);
    var at := FirstGone(tabs, gone);
    if at < active {
      assert gone(tabs[..active][at]);
    } else {
      assert forall j | 0 <= j < active :: !gone(tabs[..active][j]);
    }
  }

  /** A table open once at most: its removal is that of one tab. */
  lemma {:induction false} OneGone(tabs: seq<Tab>, gone: Tab -> bool, i: nat)
    requires i < |tabs| && gone(tabs[i]) && forall j | 0 <= j < |tabs| && j != i :: !gone(tabs[j])
    ensures Remaining(tabs, gone) == tabs[..i] + tabs[i + 1..]
  {
    RemainingSplit(tabs, gone, i);
    assert tabs[i..][0] == tabs[i] && tabs[i..][1..] == tabs[i + 1..];
    RemainingAll(tabs[..i], gone);
    RemainingAll(tabs[i + 1..], gone);
  }

  ghost predicate OneAtMost(tabs: seq<Tab>, gone: Tab -> bool) {
    forall i, j | 0 <= i < j < |tabs| :: !(gone(tabs[i]) && gone(tabs[j]))
  }

  lemma OneGoneAtMost(tabs: seq<Tab>, gone: Tab -> bool)
    requires OneAtMost(tabs, gone)
    ensures |Remaining(tabs, gone)| == if FirstGone(tabs, gone) < |tabs| then |tabs| - 1 else |tabs|
  {
    var at := FirstGone(tabs, gone);
    RemainingAll(tabs, gone);
    if at < |tabs| { OneGone(tabs, gone, at); }
  }

  lemma DropTableIndexKeeps(tabs: seq<Tab>, active: nat, gone: Tab -> bool)
    requires active < |tabs| && OneAtMost(tabs, gone)
    ensures var (rest, index) := (Remaining(tabs, gone), DropTableIndex(tabs, active, gone));
            && (if rest == [] then index == 0 else index < |rest|)
            && (!gone(tabs[active]) ==>
                  index == NewPosition(tabs, gone, active) < |rest| && rest[index] == tabs[active])
  {
    hide Remaining, FirstGone;
    OneGoneAtMost(tabs, gone);
    if !gone(tabs[active]) {
      SurvivorStays(tabs, gone, active);
      OneGoneAtMost(tabs[..active], gone);
      DropTableActiveIff(tabs, active, gone);
    }
  }

  lemma {:induction false} RemainingDistinct(tabs: seq<Tab>, gone: Tab -> bool)
    requires TablesDistinct(tabs)
    ensures TablesDistinct(Remaining(tabs, gone)) && forall x | x in Remaining(tabs, gone) :: x in tabs
  {
    if tabs != [] {
      assert forall i | 0 <= i < |tabs[1..]| :: tabs[1..][i] == tabs[i + 1];
      assert TablesDistinct(tabs[1..]);
      assert forall x | x in tabs[1..] :: tabs[0].TableTab? ==> x != tabs[0];
      RemainingDistinct(tabs[1..], gone);
      var rest := Remaining(tabs[1..], gone);
      assert forall i | 0 <= i < |rest| :: rest[i] in rest;
      assert Remaining(tabs, gone) == (if gone(tabs[0]) then [] else [tabs[0]]) + rest;
      hide Remaining;
    }
  }

  /** With no table open twice, dropping one keeps the active tab active and the index in range. */
  lemma DropTableKeepsActive(s: ConnState, d: Name, t: Name)
    requires InRange(s) && TablesDistinct(s.openTabs)
    ensures var r := DropTable(s, d, t);
            && InRange(r) && TablesDistinct(r.openTabs)
            && (s.openTabs != [] && s.openTabs[s.activeTabIndex] != TableTab(d, t) ==>
                  r.activeTabIndex == NewPosition(s.openTabs, IsTable(d, t), s.activeTabIndex) < |r.openTabs|
                  && r.openTabs[r.activeTabIndex] == s.openTabs[s.activeTabIndex])
  {
    var gone := IsTable(d, t);
    assert OneAtMost(s.openTabs, gone);
    hide Remaining, TablesOf, NewPosition, Lookup, FirstGone, OneAtMost, TablesDistinct, DropTableIndex;
    RemainingDistinct(s.openTabs, gone);
    DroppedTabs(s, d, t);
    assert Remaining([], gone) == [] && DropTableIndex([], 0, gone) == 0 by { DropNothing(gone); }
    if s.openTabs != [] { DropTableIndexKeeps(s.openTabs, s.activeTabIndex, gone); }
  }

  lemma DroppedTabs(s: ConnState, d: Name, t: Name)
    ensures DropTable(s, d, t).openTabs == Remaining(s.openTabs, IsTable(d, t))
    ensures DropTable(s, d, t).activeTabIndex == DropTableIndex(s.openTabs, s.activeTabIndex, IsTable(d, t))
    ensures DropTable(s, d, t).openTables == TablesOf(Remaining(s.openTabs, IsTable(d, t)))
  {
    hide Remaining, TablesOf, Lookup, DropTableIndex;
  }

  lemma DropNothing(gone: Tab -> bool)
    ensures Remaining([], gone) == [] && DropTableIndex([], 0, gone) == 0
  {
  }

  // ---- a table is renamed ----

  function Renamed(tabs: seq<Tab>, d: Name, from: Name, to: Name): (r: seq<Tab>)
    ensures |r| == |tabs|
  {
    seq(|tabs|, i requires 0 <= i < |tabs| => if tabs[i] == TableTab(d, from) then TableTab(d, to) else tabs[i])
  }

  function Kept(m: map<TableId, string>, from: TableId, to: TableId, found: Option<string>): map<TableId, string> {
    match found
    case Some(v) => (m - {from})[to := v]
    case None => m - {from}
  }

  /**
   `structure` and `info` are what the read found under the new name, and `blank` stands for details that are not known.
   */
  function RenameTable(s: ConnState, d: Name, from: Name, to: Name, structure: Option<string>, info: Option<string>,
                       blank: string)
    : ConnState
  {
    var selected := s.selectedDatabase == Some(d) && s.selectedTable == Some(from);
    var tabs, infos := Renamed(s.openTabs, d, from, to), s.infos - {(d, from)};
    var known := if info.Some? then info else if (d, to) in infos then Some(infos[(d, to)]) else Some(blank);
    Derived(s.(openTabs := tabs, openTables := TablesOf(tabs),
               structures := Kept(s.structures, (d, from), (d, to), structure),
               infos := Kept(s.infos, (d, from), (d, to), known),
               selectedTable := if selected then Some(to) else s.selectedTable,
               tableStructure := if selected && structure.Some? then structure else s.tableStructure,
               selectedTableInfo := if selected then info else s.selectedTableInfo))
  }

  /** A rename opens a table twice exactly when a tab already has the new name. */
  lemma RenameDistinctIff(tabs: seq<Tab>, d: Name, from: Name, to: Name)
    requires TablesDistinct(tabs) && from != to
    ensures TablesDistinct(Renamed(tabs, d, from, to)) <==> !(TableTab(d, from) in tabs && TableTab(d, to) in tabs)
  {
    var r := Renamed(tabs, d, from, to);
    if TableTab(d, from) in tabs && TableTab(d, to) in tabs {
      var i :| 0 <= i < |tabs| && tabs[i] == TableTab(d, from);
      var j :| 0 <= j < |tabs| && tabs[j] == TableTab(d, to);
      assert r[i] == r[j] == TableTab(d, to);
    }
  }

  /** So a rename onto an open name and then a drop of that name activate another tab, or none. */
  lemma RenameThenDropLosesActive(d: Name, from: Name, to: Name, id: Name)
    requires from != to
    ensures var tabs := [TableTab(d, from), TableTab(d, to), SqlTab(id)];
            && TablesDistinct(tabs)
            && Remaining(Renamed(tabs, d, from, to), IsTable(d, to)) == [SqlTab(id)]
            && DropTableIndex(Renamed(tabs, d, from, to), 2, IsTable(d, to)) == 1
  {
    var tabs := [TableTab(d, from), TableTab(d, to), SqlTab(id)];
    var r, gone := Renamed(tabs, d, from, to), IsTable(d, to);
    assert r == [TableTab(d, to), TableTab(d, to), SqlTab(id)];
    assert r[1..][1..] == [SqlTab(id)];
    assert Remaining([SqlTab(id)], gone) == [SqlTab(id)] by { assert [SqlTab(id)][1..] == []; }
    assert Remaining(r[1..], gone) == [SqlTab(id)] && Remaining(r, gone) == [SqlTab(id)];
  }

  // ---- a database is dropped ----

  function InDatabase(d: Name): Tab -> bool { (x: Tab) => x.TableTab? && x.database == d }

  /** Where the active tab, or its successor, stands among those that stay; the last one if that is past the end. */
  function DroppedIndex(tabs: seq<Tab>, active: nat, gone: Tab -> bool): nat {
    var rest := Remaining(tabs, gone);
    var before := if active < |tabs| then GoneBefore(tabs, gone, active) else |tabs| - |rest|;
    if rest == [] then 0 else if active - before < |rest| then active - before else |rest| - 1
  }

  /** A surviving active tab stays active, however many tabs go. */
  lemma DroppedIndexKeeps(tabs: seq<Tab>, active: nat, gone: Tab -> bool)
    ensures var rest, index := Remaining(tabs, gone), DroppedIndex(tabs, active, gone);
            && (if rest == [] then index == 0 else index < |rest|)
            && (active < |tabs| && !gone(tabs[active]) ==> index < |rest| && rest[index] == tabs[active])
  {
    if active < |tabs| && !gone(tabs[active]) { SurvivorStays(tabs, gone, active); }
  }

  /** The loop counts the removed tabs before the active one. */
  method DropDatabaseIndex(tabs: seq<Tab>, active: nat, database: Name) returns (index: nat)
    ensures index == DroppedIndex(tabs, active, InDatabase(database))
  {
    var removedBefore, activeRemoved := 0, false;
    assert tabs[..|tabs|] == tabs;
    for i := 0 to |tabs|
      invariant removedBefore == GoneBefore(tabs, InDatabase(database), if i < active then i else active)
      invariant activeRemoved <==> active < i && InDatabase(database)(tabs[active])
    {
      if i < active {
        assert tabs[..i + 1] == tabs[..i] + [tabs[i]];
        RemainingSplit(tabs[..i + 1], InDatabase(database), i);
        assert tabs[..i + 1][..i] == tabs[..i] && tabs[..i + 1][i..] == [tabs[i]];
        assert [tabs[i]][1..] == [];
      }
      if tabs[i].TableTab? && tabs[i].database == database {
        if i < active { removedBefore := removedBefore + 1; }
        if i == active { activeRemoved := true; }
      }
    }
    var rest := Remaining(tabs, InDatabase(database));
    var newIdx := active - removedBefore;
    if activeRemoved && |rest| > 0 && newIdx > |rest| - 1 { newIdx := |rest| - 1; }
    var last := if |rest| > 0 then |rest| - 1 else 0;
    index := if newIdx < last then newIdx else last;
  }

  function Without(m: map<TableId, string>, database: Name): map<TableId, string> {
    map k | k in m && k.0 != database :: m[k]
  }

  function DropDatabase(s: ConnState, d: Name): ConnState {
    var tabs := Remaining(s.openTabs, InDatabase(d));
    var active := DroppedIndex(s.openTabs, s.activeTabIndex, InDatabase(d));
    var left := s.(openTabs := tabs, activeTabIndex := active, openTables := TablesOf(tabs),
                   activeTableTabIndex := |TablesOf(tabs[..active])|,
                   structures := Without(s.structures, d), infos := Without(s.infos, d));
    if s.selectedDatabase != Some(d) then left
    else if active < |tabs| && tabs[active].TableTab? then
      var k := (tabs[active].database, tabs[active].table);
      left.(selectedDatabase := Some(k.0), selectedTable := Some(k.1),
            tableStructure := Lookup(left.structures, k), selectedTableInfo := Lookup(left.infos, k))
    else left.(selectedDatabase := None, selectedTable := None, tableStructure := None, selectedTableInfo := None)
  }

  lemma DroppedDatabaseTabs(s: ConnState, d: Name)
    ensures DropDatabase(s, d).openTabs == Remaining(s.openTabs, InDatabase(d))
    ensures DropDatabase(s, d).activeTabIndex == DroppedIndex(s.openTabs, s.activeTabIndex, InDatabase(d))
    ensures DropDatabase(s, d).openTables == TablesOf(Remaining(s.openTabs, InDatabase(d)))
  {
    hide Remaining, TablesOf, Lookup, DroppedIndex, Without;
  }
}
