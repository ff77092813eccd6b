/**
 When a state is open to harm: the states from which eviction can empty rows that still have a context, although
 loads are started only for the table shown, or while no rows are.
 */
module TableStoreExposure {
  import opened TableStore
  import opened TableStoreProofs
  import opened TableStoreSharing

  /** Rows are those of the cache key, and are there as long as they were not taken back. */
  ghost predicate Intact(n: nat, d: Data) {
    && (d.rows.Some? ==> d.cacheKey == d.rows && !d.evicted && d.rows.value < n)
    && (d.columns.Some? ==> d.columns.value < n)
  }

  ghost predicate AllIntact(s: Store) {
    && Intact(|s.responses|, s.view) && (forall k | k in s.cache :: Intact(|s.responses|, s.cache[k]))
    && (forall t | t in s.truncated :: t < |s.responses|)
  }

  /** A context for rows that are gone. */
  predicate Hollow(s: Store, d: Data) {
    d.context.Some? && d.rows.Some? && d.rows.value in s.truncated
  }

  predicate Broken(s: Store) {
    Hollow(s, s.view) || exists k | k in s.cache :: Hollow(s, s.cache[k])
  }

  /** Two tables are kept with one array, the second with a context. */
  predicate KeptTwice(s: Store, a: TableKey, b: TableKey) {
    && a != b && a in s.cache && b in s.cache
    && s.cache[a].rows.Some? && s.cache[b].rows == s.cache[a].rows && s.cache[b].context.Some?
  }

  /** A table is kept with the array that another one is shown with, and that would be kept for it. */
  predicate KeptAndShown(s: Store, a: TableKey) {
    && a in s.cache && s.active.Some? && s.active != Some(a) && HasRows(s)
    && s.view.rows.Some? && s.cache[a].rows == s.view.rows && (s.view.context.Some? || s.cache[a].context.Some?)
  }

  /** Two tables hold one array. */
  ghost predicate Shared(s: Store) {
    (exists a, b :: KeptTwice(s, a, b)) || (exists a :: KeptAndShown(s, a))
  }

  ghost predicate Safe(s: Store) {
    !Broken(s) && !Shared(s)
  }

  // ---- steps that bring no rows ----

  predicate Faded(d: Data, d': Data) {
    && d'.rows == d.rows && d'.cacheKey == d.cacheKey && d'.columns == d.columns && d'.evicted == d.evicted
    && (d'.context == d.context || d'.context == None)
  }

  /** What the steps keep. */
  ghost predicate Kept(s: Store, s': Store) {
    AllIntact(s') && (Safe(s) ==> Safe(s'))
  }

  lemma FadedKeeps(s: Store, s': Store)
    requires AllIntact(s) && s'.responses == s.responses && s'.truncated == s.truncated && s'.active == s.active
    requires Faded(s.view, s'.view) && forall k | k in s'.cache :: k in s.cache && Faded(s.cache[k], s'.cache[k])
    ensures Kept(s, s')
  {
    if Safe(s) {
      forall a, b ensures !KeptTwice(s', a, b) { assert !KeptTwice(s, a, b); }
      forall a ensures !KeptAndShown(s', a) { assert !KeptAndShown(s, a); }
    }
  }

  lemma KeptItself(s: Store)
    requires AllIntact(s)
    ensures Kept(s, s)
  {
  }

  lemma KeptTransitive(s: Store, m: Store, s': Store)
    requires Kept(s, m) && Kept(m, s')
    ensures Kept(s, s')
  {
  }

  /** Nothing is shown with rows any more, and nothing new is kept. */
  lemma GoneKeeps(s: Store, s': Store)
    requires AllIntact(s) && s'.responses == s.responses && s'.truncated == s.truncated
             && s'.view.rows == s'.view.columns == None
    requires forall k | k in s'.cache :: k in s.cache && Faded(s.cache[k], s'.cache[k])
    ensures Kept(s, s')
  {
    if Safe(s) {
      forall a, b ensures !KeptTwice(s', a, b) { assert !KeptTwice(s, a, b); }
    }
  }

  // ---- steps that do ----

  /** New rows for a table that is shown, or for one that is only kept. */
  lemma ArrivalKeeps(s: Store, s': Store, key: TableKey)
    requires AllIntact(s) && s'.truncated == s.truncated && s'.active == s.active
    requires |s'.responses| == |s.responses| + 1 && s.responses <= s'.responses
    requires s'.cache.Keys == s.cache.Keys + {key} && forall k | k in s'.cache && k != key :: s'.cache[k] == s.cache[k]
    requires Fresh(s, s'.cache[key])
    requires s'.view == s.view || (Fresh(s, s'.view) && (s.active.Some? ==> s.active == Some(key)))
    ensures Kept(s, s')
  {
    forall k | k in s'.cache ensures Intact(|s'.responses|, s'.cache[k]) {
      if k != key { assert Intact(|s.responses|, s.cache[k]); }
    }
    if Safe(s) {
      forall a, b ensures !KeptTwice(s', a, b) { assert !KeptTwice(s, a, b); }
      forall a ensures !KeptAndShown(s', a) { assert !KeptAndShown(s, a); }
    }
  }

  predicate Fresh(s: Store, d: Data) {
    d.rows == d.columns == d.cacheKey == Some(|s.responses|) && !d.evicted
  }

  lemma DataKeeps(s: Store, r: nat, answer: Response)
    requires Good(s) && AllIntact(s) && Unanswered(s, r, DataRequest)
    ensures Kept(s, DataArrived(s, r, answer))
  {
    FinishSame(s, r);
    var s' := DataArrived(s, r, answer);
    if Latest(Finish(s, r), r) {
      LatestIsCurrent(s, r);
      hide Finish, Latest, Good, Kept;
      ArrivalKeeps(s, s', s.requests[r].key);
    } else {
      hide Kept;
      FadedKeeps(s, s');
    }
  }

  lemma ApplyKeeps(s: Store, r: Reload, answer: Response)
    requires AllIntact(s)
    ensures Kept(s, ApplyReload(s, r, answer))
  {
    hide Kept;
    ArrivalKeeps(s, ApplyReload(s, r, answer), r.key);
  }

  lemma ReloadKeeps(s: Store, i: nat, answer: Response)
    requires AllIntact(s) && i < |s.reloads| && s.reloads[i].write < |s.writes|
    ensures Kept(s, ReloadArrived(s, i, answer))
  {
    var r := s.reloads[i];
    var done := s.(reloads := s.reloads[i := r.(done := true)]);
    var applied := if Applies(s, r) then ApplyReload(done, r, answer) else done;
    assert |applied.writes| == |s.writes|;
    hide Applies, CanCancel;
    FadedKeeps(s, done);
    ApplyKeeps(done, r, answer);
    hide ApplyReload, Safe;
    FadedKeeps(applied, EndWrite(applied, r.write));
  }

  /** The table that is left is kept as it was shown, and the next one shown as it was kept. */
  lemma SwitchKeeps(s: Store, key: TableKey)
    requires AllIntact(s)
    ensures Kept(s, SwitchToTable(s, key))
  {
    hide IsCurrent, Writing, CanCancel, CurrentQuery, AllIntact, Safe, Kept, HasRows;
    var s' := SwitchToTable(s, key);
    if s'.view == s.view && s'.cache == s.cache && s'.active == s.active {
      FadedKeeps(s, s');
    } else {
      var settled := if s.active.Some? && s.active != Some(key) && HasRows(s) then s'.cache[s.active.value].page else 0;
      SwitchedKeeps(s, s', key, settled);
    }
  }

  lemma SwitchedKeeps(s: Store, s': Store, key: TableKey, settled: int)
    requires AllIntact(s) && s'.responses == s.responses && s'.truncated == s.truncated && s'.active == Some(key)
    requires s'.cache == if s.active.Some? && s.active != Some(key) && HasRows(s)
                         then s.cache[s.active.value := s.view.(page := settled)] else s.cache
    requires s'.view == if key in s'.cache then s'.cache[key] else INITIAL_DATA
    ensures Kept(s, s')
  {
    hide HasRows;
    if Safe(s) {
      forall a, b ensures !KeptTwice(s', a, b) {
        assert !KeptTwice(s, a, b) && !KeptAndShown(s, a) && !KeptAndShown(s, b);
      }
      forall a ensures !KeptAndShown(s', a) {
        assert !KeptTwice(s', a, key) && !KeptTwice(s', key, a);
      }
    }
  }

  lemma EvictKeeps(s: Store, key: TableKey, id: nat)
    requires AllIntact(s)
    ensures Kept(s, Evict(s, key, id))
  {
    var s' := Evict(s, key, id);
    if Safe(s) && s' != s {
      forall k | k in s'.cache ensures !Hollow(s', s'.cache[k]) { assert !KeptTwice(s, key, k); }
      forall a, b ensures !KeptTwice(s', a, b) { assert !KeptTwice(s, a, b); }
      assert HasRows(s') ==> HasRows(s);
      hide HasRows;
      forall a ensures !KeptAndShown(s', a) { assert !KeptAndShown(s, a); }
    }
  }

  lemma LoadKeeps(s: Store, key: TableKey, columns: Option<seq<string>>)
    requires AllIntact(s)
    ensures AllIntact(LoadData(s, key, columns))
    ensures s.active == Some(key) || s.view.cacheKey.None? ==> Kept(s, LoadData(s, key, columns))
  {
    hide CanCancel, QueryOf, Safe, HasRows, Kept;
    LoadIntact(s, key, columns);
    if s.active == Some(key) {
      hide AllIntact;
      FadedKeeps(s, LoadData(s, key, columns));
    } else if s.view.cacheKey.None? {
      LoadUnshownKeeps(s, LoadData(s, key, columns));
    }
  }

  lemma LoadIntact(s: Store, key: TableKey, columns: Option<seq<string>>)
    requires AllIntact(s)
    ensures AllIntact(LoadData(s, key, columns))
  {
    hide CanCancel, QueryOf;
  }

  lemma LoadUnshownKeeps(s: Store, s': Store)
    requires AllIntact(s) && s.view.rows.None? && s'.view.rows.None? && s'.cache == s.cache
             && s'.truncated == s.truncated && AllIntact(s')
    ensures Kept(s, s')
  {
    if Safe(s) {
      forall a, b ensures !KeptTwice(s', a, b) { assert !KeptTwice(s, a, b); }
    }
  }

  /** Cancelled: the rows that are kept for the table are shown again. */
  lemma CancelKeeps(s: Store)
    requires AllIntact(s)
    ensures Kept(s, CancelLoad(s))
  {
    hide IsCurrent;
    var s' := CancelLoad(s);
    if Safe(s) {
      forall a, b ensures !KeptTwice(s', a, b) { assert !KeptTwice(s, a, b); }
      forall a ensures !KeptAndShown(s', a) {
        assert !KeptAndShown(s, a);
        if s.active.Some? { assert !KeptTwice(s, a, s.active.value) && !KeptTwice(s, s.active.value, a); }
      }
    }
  }

  lemma ClearedKeeps(s: Store, key: TableKey)
    requires AllIntact(s)
    ensures Kept(s, AfterCleared(s, key))
  {
    hide LoadData, WithoutCounts, Kept, AllIntact;
    var left := s.(cache := map k | k in s.cache && k != key :: s.cache[k], counts := WithoutCounts(s, k => k == key));
    FadedKeeps(s, left);
    if s.active == Some(key) {
      var cleared := left.(counter := s.counter + 1, view := Cleared(s.view), navigation := None);
      FadedKeeps(s, cleared);
      assert AllIntact(cleared) by { assert Kept(s, cleared); }
      LoadKeeps(cleared, key, s.view.lastColumns);
      KeptTransitive(s, cleared, AfterCleared(s, key));
    }
  }

  lemma RemoveKeeps(s: Store, gone: TableKey -> bool)
    requires AllIntact(s)
    ensures Kept(s, Remove(s, gone)) && Kept(s, Reset(s))
  {
    hide CancelFor, StopWrites, WithoutCounts, AllIntact, Kept;
    GoneKeeps(s, Reset(s));
    if s.active.Some? && gone(s.active.value) {
      GoneKeeps(s, Remove(s, gone));
    } else {
      FadedKeeps(s, Remove(s, gone));
    }
  }

  lemma StaleKeeps(s: Store, key: TableKey)
    requires AllIntact(s)
    ensures Kept(s, MarkStale(s, key))
  {
    hide CancelFor, WithoutCounts, AllIntact, Kept;
    FadedKeeps(s, MarkStale(s, key));
  }

  lemma CountKeeps(s: Store, r: nat, total: int)
    requires AllIntact(s) && r < |s.requests|
    ensures Kept(s, CountArrived(s, r, total))
  {
    hide CanCancel, Latest, AllIntact, Kept;
    FadedKeeps(s, CountArrived(s, r, total));
  }

  lemma RefreshedCache(s: Store, r: nat, total: int)
    requires r < |s.requests|
    ensures var m := RefreshArrived(s, r, total).cache; forall k | k in m :: k in s.cache && Faded(s.cache[k], m[k])
  {
    hide CanCancel, ClampedPage;
  }

  lemma RefreshKeeps(s: Store, r: nat, total: int)
    requires AllIntact(s) && r < |s.requests|
    ensures Kept(s, RefreshArrived(s, r, total))
  {
    hide CanCancel, ClampedPage, CurrentQuery, AllIntact, Kept;
    var request, done := s.requests[r], RefreshArrived(s, r, total);
    assert Faded(s.view, done.view) && done.active == s.active && done.truncated == s.truncated
           && done.responses == s.responses;
    hide Finish, Totalled;
    assert forall k | k in done.cache :: k in s.cache && Faded(s.cache[k], done.cache[k]) by {
      RefreshedCache(s, r, total);
    }
    FadedKeeps(s, done);
  }

  lemma FinishKeeps(s: Store, r: nat)
    requires AllIntact(s) && r < |s.requests|
    ensures Kept(s, Finish(s, r)) && Kept(s, DataFailed(s, r))
  {
    hide CanCancel, Latest, AllIntact, Kept;
    FadedKeeps(s, Finish(s, r));
    FadedKeeps(s, DataFailed(s, r));
  }

  lemma WriteKeeps(s: Store, w: nat, key: TableKey)
    requires AllIntact(s)
    ensures Kept(s, BeginWrite(s, key))
    ensures w < |s.writes| ==> Kept(s, EndWrite(s, w)) && Kept(s, WriteFailed(s, w)) && Kept(s, BeginReload(s, w))
  {
    hide CanCancel, AllIntact, Kept;
    FadedKeeps(s, BeginWrite(s, key));
    if w < |s.writes| {
      FadedKeeps(s, EndWrite(s, w));
      FadedKeeps(s, WriteFailed(s, w));
      FadedKeeps(s, BeginReload(s, w));
    }
  }

  lemma ViewKeeps(s: Store, view: Data)
    requires AllIntact(s) && Faded(s.view, view)
    ensures Kept(s, Restart(s, view))
  {
    hide AllIntact, Kept;
    FadedKeeps(s, Restart(s, view));
  }

  lemma PageKeeps(s: Store, page: int, direction: Option<Direction>)
    requires AllIntact(s)
    ensures Kept(s, SetPage(s, page, direction))
  {
    hide CurrentQuery, AllIntact, Kept;
    FadedKeeps(s, SetPage(s, page, direction));
  }

  lemma FreshKeeps(s: Store, key: TableKey)
    requires AllIntact(s)
    ensures Kept(s, RefreshPagination(s, key))
  {
    hide CanCancel, QueryOf, AllIntact, Kept;
    FadedKeeps(s, RefreshPagination(s, key));
  }

  lemma KeptByOthers(s: Store, step: Step)
    requires Good(s) && AllIntact(s) && !step.Load?
    ensures Kept(s, Do(s, step))
  {
    hide Good, AllIntact, Safe, Kept, HasRows, Restart, Cleared, WithoutColumn, LoadData, DataArrived, DataFailed,
         CountArrived, Finish, CancelLoad;
    hide RefreshPagination, RefreshArrived, SetPage, SwitchToTable, Remove, MarkStale, AfterCleared, Evict, BeginWrite,
         BeginReload;
    hide ReloadArrived, WriteFailed, EndWrite, Reset;
    KeptItself(s);
    match step
    case DataAnswer(r, answer) => if Unanswered(s, r, DataRequest) { DataKeeps(s, r, answer); }
    case DataError(r) => if Unanswered(s, r, DataRequest) { FinishKeeps(s, r); }
    case CountAnswer(r, total) => if Unanswered(s, r, CountRequest) { CountKeeps(s, r, total); }
    case CountError(r) => if Unanswered(s, r, CountRequest) { FinishKeeps(s, r); }
    case Cancel => CancelKeeps(s);
    case Refresh(key) => FreshKeeps(s, key);
    case RefreshAnswer(r, total) => if Unanswered(s, r, RefreshRequest) { RefreshKeeps(s, r, total); }
    case RefreshError(r) => if Unanswered(s, r, RefreshRequest) { FinishKeeps(s, r); }
    case ChangePage(page, direction) => PageKeeps(s, page, direction);
    case ChangePageSize(size) => ViewKeeps(s, s.view.(pageSize := size));
    case ChangeSort(sort) => ViewKeeps(s, s.view.(sort := sort));
    case DropSort(column) => ViewKeeps(s, s.view.(sort := WithoutColumn(s.view.sort, column)));
    case ChangeFilter(filter) => ViewKeeps(s, s.view.(filter := filter));
    case Switch(key) => SwitchKeeps(s, key);
    case CloseTable(key) => RemoveKeeps(s, k => k == key);
    case CloseConnection(conn) => RemoveKeeps(s, (k: TableKey) => k.conn == conn);
    case Stale(key) => StaleKeeps(s, key);
    case Emptied(key) => ClearedKeeps(s, key);
    case Evicted(key, id) => EvictKeeps(s, key, id);
    case WriteBegins(key) => WriteKeeps(s, 0, key);
    case WriteDone(w) => if w < |s.writes| { WriteKeeps(s, w, s.writes[w].key); }
    case ReloadAnswer(i, answer) => if i < |s.reloads| && s.reloads[i].write < |s.writes| { ReloadKeeps(s, i, answer); }
    case WriteError(w) => if w < |s.writes| { WriteKeeps(s, w, s.writes[w].key); }
    case ResetAll => RemoveKeeps(s, _ => true);
  }

  lemma KeptStep(s: Store, step: Step)
    requires Good(s) && AllIntact(s)
    ensures AllIntact(Do(s, step))
    ensures Disciplined(s, step) ==> Kept(s, Do(s, step))
  {
    hide Good, AllIntact, Safe, LoadData;
    if step.Load? {
      LoadKeeps(s, step.key, step.columns);
    } else {
      KeptByOthers(s, step);
      hide Do;
    }
  }

  lemma {:induction false} IntactRun(steps: seq<Step>)
    ensures Good(Run(steps)) && AllIntact(Run(steps))
  {
    Reachable(steps);
    if steps != [] {
      IntactRun(steps[..|steps| - 1]);
      KeptStep(Run(steps[..|steps| - 1]), steps[|steps| - 1]);
    }
  }

  // ---- exactly these states are open to harm ----

  /** What can follow, with loads only for the table shown, or while no rows are. */
  predicate DisciplinedFrom(s: Store, more: seq<Step>)
    decreases more
  {
    more == [] || (Disciplined(s, more[0]) && DisciplinedFrom(Do(s, more[0]), more[1..]))
  }

  function Onward(s: Store, more: seq<Step>): Store
    decreases more
  {
    if more == [] then s else Onward(Do(s, more[0]), more[1..])
  }

  lemma {:induction false} SafeStays(s: Store, more: seq<Step>)
    requires Good(s) && AllIntact(s) && Safe(s) && DisciplinedFrom(s, more)
    ensures Safe(Onward(s, more))
    decreases more
  {
    hide Good, AllIntact, Safe, Do, Disciplined;
    if more != [] {
      GoodStep(s, more[0]);
      KeptStep(s, more[0]);
      SafeStays(Do(s, more[0]), more[1..]);
    }
  }

  lemma KeptTwiceHarms(s: Store, a: TableKey, b: TableKey)
    requires AllIntact(s) && KeptTwice(s, a, b)
    ensures Broken(Evict(s, a, s.cache[a].rows.value))
  {
    var r := Evict(s, a, s.cache[a].rows.value);
    assert b in r.cache && r.cache[b] == s.cache[b] && Hollow(r, r.cache[b]);
  }

  lemma OneStep(s: Store, e: Step)
    requires !e.Load?
    ensures DisciplinedFrom(s, [e]) && Onward(s, [e]) == Do(s, e)
  {
    hide Do;
    assert [e][1..] == [];
  }

  lemma TwoSteps(s: Store, e: Step, f: Step)
    requires !e.Load? && !f.Load?
    ensures DisciplinedFrom(s, [e, f]) && Onward(s, [e, f]) == Do(Do(s, e), f)
  {
    hide Do;
    OneStep(Do(s, e), f);
    assert [e, f][1..] == [f];
  }

  /** Two tables with one array are one step from harm, or two. */
  lemma SharedHarms(s: Store) returns (more: seq<Step>)
    requires AllIntact(s) && (Broken(s) || Shared(s))
    ensures DisciplinedFrom(s, more) && Broken(Onward(s, more))
  {
    hide AllIntact, Broken, Evict, SwitchToTable;
    if Broken(s) {
      more := [];
    } else if a, b :| KeptTwice(s, a, b) {
      more := [Evicted(a, s.cache[a].rows.value)];
      OneStep(s, more[0]);
      KeptTwiceHarms(s, a, b);
    } else {
      var a :| KeptAndShown(s, a);
      var gone := if s.view.context.Some? then a else s.active.value;
      more := [Switch(a), Evicted(gone, s.view.rows.value)];
      TwoSteps(s, more[0], more[1]);
      LeftThenEvicted(s, a, gone);
    }
  }

  lemma LeftThenEvicted(s: Store, a: TableKey, gone: TableKey)
    requires AllIntact(s) && KeptAndShown(s, a) && gone == if s.view.context.Some? then a else s.active.value
    ensures Broken(Evict(SwitchToTable(s, a), gone, s.view.rows.value))
  {
    var b := s.active.value;
    var m := SwitchToTable(s, a);
    assert m.cache == s.cache[b := m.cache[b]] && m.cache[b] == s.view.(page := m.cache[b].page)
           && m.truncated == s.truncated by {
      hide Writing, IsCurrent, CurrentQuery;
    }
    hide SwitchToTable, HasRows;
    var r := Evict(m, gone, s.view.rows.value);
    if s.view.context.Some? { assert Hollow(r, r.cache[b]); } else { assert Hollow(r, r.cache[a]); }
  }

  /**
   From any reachable state, whatever loads led there: some continuation that starts loads only for the table shown,
   or while no rows are, empties rows that have a context exactly when it has happened or two tables hold one array.
   */
  lemma HarmIff(steps: seq<Step>, s: Store)
    requires s == Run(steps)
    ensures (exists more :: DisciplinedFrom(s, more) && Broken(Onward(s, more))) <==> Broken(s) || Shared(s)
  {
    IntactRun(steps);
    hide Run, Good, AllIntact, Broken, Shared;
    if Broken(s) || Shared(s) {
      var more := SharedHarms(s);
      assert DisciplinedFrom(s, more) && Broken(Onward(s, more));
    } else {
      forall more | DisciplinedFrom(s, more) ensures !Broken(Onward(s, more)) { SafeStays(s, more); }
    }
  }
}
