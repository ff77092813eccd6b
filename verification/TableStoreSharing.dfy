/**
 Eviction empties a row array in place.  As long as loads are started only for the active table, or while
 nothing is shown, no two tables hold the same array, so whatever still has a context has all its rows.
 */
module TableStoreSharing {
  import opened TableStore
  import opened TableStoreProofs

  /** A load is started for the table that is shown, or while no rows are. */
  predicate Disciplined(s: Store, step: Step) {
    step.Load? ==> s.active == Some(step.key) || s.view.cacheKey.None?
  }

  /** Rows are those of the response in the cache key, which was asked for this table. */
  ghost predicate Holds(responses: seq<Response>, d: Data, key: Option<TableKey>) {
    && (d.rows.Some? ==> d.rows == d.cacheKey)
    && (d.cacheKey.Some? ==>
          d.cacheKey.value < |responses| && (key.Some? ==> responses[d.cacheKey.value].query.key == key))
  }

  ghost predicate Owned(s: Store) {
    && Holds(s.responses, s.view, s.active)
    && (forall k | k in s.cache :: Holds(s.responses, s.cache[k], Some(k)))
    && (forall i | 0 <= i < |s.reloads| :: s.reloads[i].query.key == Some(s.reloads[i].key))
  }

  /** What is shown or kept was not emptied. */
  ghost predicate Whole(s: Store) {
    && (forall r | r in s.truncated :: r < |s.responses|)
    && (s.view.rows.Some? ==> s.view.rows.value !in s.truncated)
    && (forall k | k in s.cache && s.cache[k].rows.Some? :: s.cache[k].rows.value !in s.truncated)
  }

  ghost predicate Steady(s: Store) {
    Owned(s) && Whole(s)
  }

  ghost predicate Sound(s: Store) {
    Good(s) && Steady(s)
  }

  predicate SameRows(a: Data, b: Data) {
    a.rows == b.rows && a.cacheKey == b.cacheKey
  }

  /** Steps that neither bring rows nor take any but whole tables. */
  lemma RowsStay(s: Store, s': Store)
    requires Steady(s) && s'.responses == s.responses && s'.truncated == s.truncated
    requires SameRows(s.view, s'.view) && s'.active == s.active
    requires forall k | k in s'.cache :: k in s.cache && SameRows(s.cache[k], s'.cache[k])
    requires forall i | 0 <= i < |s'.reloads| :: s'.reloads[i].query.key == Some(s'.reloads[i].key)
    ensures Steady(s')
  {
  }

  lemma WholeSwitch(s: Store, key: TableKey)
    requires Sound(s)
    ensures Steady(SwitchToTable(s, key))
  {
    hide HasRows, IsCurrent, Writing, CanCancel, CurrentQuery;
  }

  lemma WholeDataArrived(s: Store, r: nat, answer: Response)
    requires Sound(s) && Unanswered(s, r, DataRequest)
    ensures Steady(DataArrived(s, r, answer))
  {
    FinishSame(s, r);
    var s' := DataArrived(s, r, answer);
    if Latest(Finish(s, r), r) {
      LatestIsCurrent(s, r);
      assert Wellformed(s, r);
      hide Finish, Latest, Good;
      WholeArrival(s, s', s.requests[r].key);
    } else {
      RowsStay(s, s');
    }
  }

  /** New rows for a table that is shown, or for one that is only kept. */
  lemma WholeArrival(s: Store, s': Store, key: TableKey)
    requires Steady(s) && s'.truncated == s.truncated && s'.active == s.active
    requires |s'.responses| == |s.responses| + 1 && s.responses <= s'.responses
             && s'.responses[|s.responses|].query.key == Some(key)
    requires s'.cache.Keys == s.cache.Keys + {key} && forall k | k in s'.cache && k != key :: s'.cache[k] == s.cache[k]
    requires s'.cache[key].rows == s'.cache[key].cacheKey == Some(|s.responses|)
    requires SameRows(s'.view, s.view) ||
             (s'.view.rows == s'.view.cacheKey == Some(|s.responses|) && (s.active.Some? ==> s.active == Some(key)))
    requires forall i | 0 <= i < |s'.reloads| :: s'.reloads[i].query.key == Some(s'.reloads[i].key)
    ensures Steady(s')
  {
    forall k | k in s'.cache ensures Holds(s'.responses, s'.cache[k], Some(k)) {
      if k != key { assert Holds(s.responses, s.cache[k], Some(k)); }
    }
  }

  lemma WholeApply(s: Store, r: Reload, answer: Response)
    requires Steady(s) && r.query.key == Some(r.key)
    ensures Steady(ApplyReload(s, r, answer))
  {
    var s' := ApplyReload(s, r, answer);
    hide Whole;
    WholeArrival(s, s', r.key);
  }

  lemma WholeReload(s: Store, i: nat, answer: Response)
    requires Steady(s) && i < |s.reloads| && s.reloads[i].write < |s.writes|
    ensures Steady(ReloadArrived(s, i, answer))
  {
    var r := s.reloads[i];
    var done := s.(reloads := s.reloads[i := r.(done := true)]);
    RowsStay(s, done);
    WholeApply(done, r, answer);
    assert |ApplyReload(done, r, answer).writes| == |s.writes|;
    hide Steady, ApplyReload;
    WholeWrites(done, r.write);
    WholeWrites(ApplyReload(done, r, answer), r.write);
  }

  lemma WholeEvict(s: Store, key: TableKey, id: nat)
    requires Steady(s)
    ensures Steady(Evict(s, key, id))
  {
    EvictOwned(s, key, id);
    var s' := Evict(s, key, id);
    hide Owned;
    if s' != s {
      if s.cache[key].rows.Some? { KeptElsewhere(s, key); }
      forall k | k in s'.cache && s'.cache[k].rows.Some? ensures s'.cache[k].rows.value !in s'.truncated {
        assert k != key && s'.cache[k] == s.cache[k];
      }
    }
  }

  lemma EvictOwned(s: Store, key: TableKey, id: nat)
    requires Owned(s)
    ensures Owned(Evict(s, key, id))
  {
  }

  /** No other table keeps the rows of this one, and it is shown with them only if they are in its cache key. */
  lemma KeptElsewhere(s: Store, key: TableKey)
    requires Owned(s) && key in s.cache && s.cache[key].rows.Some?
    ensures forall k | k in s.cache && k != key :: s.cache[k].rows != s.cache[key].rows
    ensures s.view.rows == s.cache[key].rows ==> s.view.cacheKey == s.cache[key].cacheKey
  {
    assert Holds(s.responses, s.cache[key], Some(key));
    forall k | k in s.cache && k != key ensures s.cache[k].rows != s.cache[key].rows {
      assert Holds(s.responses, s.cache[k], Some(k));
    }
  }

  lemma WholeLoad(s: Store, key: TableKey, columns: Option<seq<string>>)
    requires Steady(s) && (s.active == Some(key) || s.view.cacheKey.None?)
    ensures Steady(LoadData(s, key, columns))
  {
    hide CanCancel, QueryOf;
    if s.active == Some(key) { RowsStay(s, LoadData(s, key, columns)); }
  }

  lemma WholeCleared(s: Store, key: TableKey)
    requires Steady(s)
    ensures Steady(AfterCleared(s, key))
  {
    hide LoadData, WithoutCounts;
    var left := s.(cache := map k | k in s.cache && k != key :: s.cache[k], counts := WithoutCounts(s, k => k == key));
    if s.active == Some(key) {
      var cleared := left.(counter := s.counter + 1, view := Cleared(s.view), navigation := None);
      RowsStay(s, cleared);
      WholeLoad(cleared, key, s.view.lastColumns);
    } else {
      RowsStay(s, left);
    }
  }

  lemma WholeCancel(s: Store)
    requires Steady(s)
    ensures Steady(CancelLoad(s))
  {
    hide IsCurrent;
    var s' := CancelLoad(s);
    assert forall k | k in s'.cache :: SameRows(s.cache[k], s'.cache[k]);
  }

  lemma WholeRemove(s: Store, gone: TableKey -> bool)
    requires Steady(s)
    ensures Steady(Remove(s, gone))
  {
    hide CancelFor, StopWrites, WithoutCounts;
  }

  lemma WholeCount(s: Store, r: nat, total: int)
    requires Steady(s) && r < |s.requests|
    ensures Steady(CountArrived(s, r, total))
  {
    hide CanCancel, Latest;
    RowsStay(s, CountArrived(s, r, total));
  }

  lemma WholeFinish(s: Store, r: nat)
    requires Steady(s) && r < |s.requests|
    ensures Steady(Finish(s, r)) && Steady(DataFailed(s, r))
  {
    hide CanCancel, Latest;
    RowsStay(s, Finish(s, r));
    RowsStay(s, DataFailed(s, r));
  }

  lemma WholeTotalled(s: Store, request: Request, total: int)
    requires Steady(s)
    ensures Steady(Totalled(s, request, total)) && |Totalled(s, request, total).requests| == |s.requests|
  {
    hide CanCancel, ClampedPage, CurrentQuery;
    RowsStay(s, Totalled(s, request, total));
  }

  lemma WholeRefreshArrived(s: Store, r: nat, total: int)
    requires Steady(s) && r < |s.requests|
    ensures Steady(RefreshArrived(s, r, total))
  {
    hide Steady, Totalled;
    WholeTotalled(s, s.requests[r], total);
    WholeFinish(s, r);
    WholeFinish(Totalled(s, s.requests[r], total), r);
  }

  lemma WholeWrites(s: Store, w: nat)
    requires Steady(s)
    ensures forall key :: Steady(BeginWrite(s, key))
    ensures w < |s.writes| ==> Steady(EndWrite(s, w)) && Steady(WriteFailed(s, w))
                               && Steady(BeginReload(s, w))
  {
    hide CanCancel;
    forall key ensures Steady(BeginWrite(s, key)) { RowsStay(s, BeginWrite(s, key)); }
    if w < |s.writes| {
      RowsStay(s, EndWrite(s, w));
      RowsStay(s, WriteFailed(s, w));
      RowsStay(s, BeginReload(s, w));
    }
  }

  lemma WholeSetPage(s: Store, page: int, direction: Option<Direction>)
    requires Steady(s)
    ensures Steady(SetPage(s, page, direction))
  {
    hide CurrentQuery;
    RowsStay(s, SetPage(s, page, direction));
  }

  lemma WholeRestart(s: Store, view: Data)
    requires Steady(s) && SameRows(s.view, view)
    ensures Steady(Restart(s, view))
  {
    RowsStay(s, Restart(s, view));
  }

  lemma WholeRefresh(s: Store, key: TableKey)
    requires Steady(s)
    ensures Steady(RefreshPagination(s, key))
  {
    hide CanCancel, QueryOf;
    RowsStay(s, RefreshPagination(s, key));
  }

  lemma WholeStale(s: Store, key: TableKey)
    requires Steady(s)
    ensures Steady(MarkStale(s, key))
  {
    hide CancelFor, WithoutCounts;
    RowsStay(s, MarkStale(s, key));
  }

  lemma WholeReset(s: Store)
    requires Steady(s)
    ensures Steady(Reset(s))
  {
  }

  lemma SoundStep(s: Store, step: Step)
    requires Sound(s) && Disciplined(s, step)
    ensures Sound(Do(s, step))
  {
    hide Good, Steady, Restart, Cleared, WithoutColumn, LoadData, DataArrived, DataFailed, CountArrived, Finish,
         CancelLoad, RefreshPagination, RefreshArrived,
         SetPage, SwitchToTable, Remove, MarkStale, AfterCleared, Evict, BeginWrite, BeginReload, ReloadArrived,
         WriteFailed, EndWrite, Reset;
    GoodStep(s, step);
    match step
    case Load(key, columns) => WholeLoad(s, key, columns);
    case DataAnswer(r, answer) => if Unanswered(s, r, DataRequest) { WholeDataArrived(s, r, answer); }
    case DataError(r) => if Unanswered(s, r, DataRequest) { WholeFinish(s, r); }
    case CountAnswer(r, total) => if Unanswered(s, r, CountRequest) { WholeCount(s, r, total); }
    case CountError(r) => if Unanswered(s, r, CountRequest) { WholeFinish(s, r); }
    case Cancel => WholeCancel(s);
    case Refresh(key) => WholeRefresh(s, key);
    case RefreshAnswer(r, total) => if Unanswered(s, r, RefreshRequest) { WholeRefreshArrived(s, r, total); }
    case RefreshError(r) => if Unanswered(s, r, RefreshRequest) { WholeFinish(s, r); }
    case ChangePage(page, direction) => WholeSetPage(s, page, direction);
    case ChangePageSize(size) => WholeRestart(s, s.view.(pageSize := size));
    case ChangeSort(sort) => WholeRestart(s, s.view.(sort := sort));
    case DropSort(column) => WholeRestart(s, s.view.(sort := WithoutColumn(s.view.sort, column)));
    case ChangeFilter(filter) => WholeRestart(s, s.view.(filter := filter));
    case Switch(key) => WholeSwitch(s, key);
    case CloseTable(key) => WholeRemove(s, k => k == key);
    case CloseConnection(conn) => WholeRemove(s, (k: TableKey) => k.conn == conn);
    case Stale(key) => WholeStale(s, key);
    case Emptied(key) => WholeCleared(s, key);
    case Evicted(key, id) => WholeEvict(s, key, id);
    case WriteBegins(key) => WholeWrites(s, 0);
    case WriteDone(w) => WholeWrites(s, w);
    case ReloadAnswer(i, answer) => if i < |s.reloads| && s.reloads[i].write < |s.writes| { WholeReload(s, i, answer); }
    case WriteError(w) => WholeWrites(s, w);
    case ResetAll => WholeReset(s);
  }

  predicate DisciplinedRun(steps: seq<Step>) {
    forall n | 0 <= n < |steps| :: Disciplined(Run(steps[..n]), steps[n])
  }

  lemma {:induction false} SoundRun(steps: seq<Step>)
    requires DisciplinedRun(steps)
    ensures Sound(Run(steps))
  {
    if steps != [] {
      var init := steps[..|steps| - 1];
      forall n | 0 <= n < |init| ensures Disciplined(Run(init[..n]), init[n]) {
        assert init[..n] == steps[..n] && Disciplined(Run(steps[..n]), steps[n]);
      }
      SoundRun(init);
      SoundStep(Run(init), steps[|steps| - 1]);
    }
  }

  /** Then what is shown or kept with a context has its rows whole. */
  lemma WholeRows(steps: seq<Step>, s: Store, d: Data)
    requires DisciplinedRun(steps) && s == Run(steps)
    requires (d == s.view || exists k :: k in s.cache && s.cache[k] == d) && d.context.Some?
    ensures d.rows == Some(d.context.value.id) && d.context.value.id !in s.truncated
  {
    SoundRun(steps);
  }

  /** A table loaded once: its rows are shown and kept. */
  lemma LoadedOnce(a: TableKey, answer: Response, s1: Store, s2: Store)
    requires s1 == LoadData(Initial(), a, None) && |s1.requests| > 0 && s2 == DataArrived(s1, 0, answer)
    ensures s1.requests[0].kind == DataRequest && !s1.requests[0].answered
    ensures s2.view.cacheKey == Some(0) && s2.view.rows == Some(0) && s2.view.context.Some?
            && s2.view.context.value.id == 0
    ensures s2.active == Some(a) && s2.truncated == {} && |s2.responses| == 1
            && s2.responses[0].rowCount == answer.rowCount
    ensures a in s2.cache && s2.cache[a].cacheKey == Some(0) && s2.cache[a].rows == Some(0) && !s2.cache[a].evicted
  {
    hide CanCancel;
    assert !s1.requests[0].cancelled && s1.counter == 1 == s1.requests[0].loadId;
  }

  /** Another load, another table, and the first one's rows taken back. */
  lemma SharedThenEvicted(a: TableKey, b: TableKey, c: TableKey, s2: Store, s5: Store)
    requires a != b && b != c && a != c
    requires s2.view.cacheKey == Some(0) && s2.view.rows == Some(0) && s2.view.context.Some?
             && s2.view.context.value.id == 0
    requires s2.active == Some(a) && s2.truncated == {} && |s2.responses| == 1 && s2.responses[0].rowCount > 0
    requires a in s2.cache && s2.cache[a].cacheKey == Some(0) && s2.cache[a].rows == Some(0) && !s2.cache[a].evicted
    requires s5 == Evict(SwitchToTable(LoadData(s2, b, None), c), a, 0)
    ensures b in s5.cache && s5.cache[b].context.Some? && s5.cache[b].context.value.id in s5.truncated
  {
    hide CanCancel, Writing, IsCurrent, CurrentQuery, QueryOf;
    var s3 := LoadData(s2, b, None);
    assert s3.active == Some(b) && s3.view.context == s2.view.context && s3.cache == s2.cache && HasRows(s3);
    var s4 := SwitchToTable(s3, c);
    assert b in s4.cache && s4.cache[b].context == s2.view.context && s4.cache[a] == s2.cache[a];
  }

  /**
   Without the discipline the property fails: a load started for a table that is not shown lets two tables share rows.
   */
  lemma UndisciplinedLoadShares(a: TableKey, b: TableKey, c: TableKey, answer: Response)
    requires a != b && b != c && a != c && answer.rowCount > 0
    ensures var steps := [Load(a, None), DataAnswer(0, answer), Load(b, None), Switch(c), Evicted(a, 0)];
            var s := Run(steps);
            !DisciplinedRun(steps) && b in s.cache && s.cache[b].context.Some?
            && s.cache[b].context.value.id in s.truncated
  {
    hide LoadData, DataArrived, SwitchToTable, Evict;
    var steps := [Load(a, None), DataAnswer(0, answer), Load(b, None), Switch(c), Evicted(a, 0)];
    var s1 := LoadData(Initial(), a, None);
    FirstRequest(a, s1);
    var s2 := DataArrived(s1, 0, answer);
    var s3 := LoadData(s2, b, None);
    var s4 := SwitchToTable(s3, c);
    LoadedOnce(a, answer, s1, s2);
    RunFive(steps, s1, s2, s3, s4, Evict(s4, a, 0));
    SharedThenEvicted(a, b, c, s2, Evict(s4, a, 0));
    assert !Disciplined(s2, steps[2]);
  }

  lemma FirstRequest(a: TableKey, s1: Store)
    requires s1 == LoadData(Initial(), a, None)
    ensures |s1.requests| > 0 && s1.requests[0].kind == DataRequest && !s1.requests[0].answered
  {
    hide CanCancel;
  }

  lemma RunFive(steps: seq<Step>, s1: Store, s2: Store, s3: Store, s4: Store, s5: Store)
    requires |steps| == 5
    requires s1 == Do(Initial(), steps[0]) && s2 == Do(s1, steps[1]) && s3 == Do(s2, steps[2]) && s4 == Do(s3, steps[3])
             && s5 == Do(s4, steps[4])
    ensures Run(steps) == s5 && Run(steps[..2]) == s2
  {
    hide Do;
    assert steps[..5] == steps;
    assert steps[..5][..4] == steps[..4] && steps[..4][..3] == steps[..3] && steps[..3][..2] == steps[..2]
           && steps[..2][..1] == steps[..1] && steps[..1][..0] == steps[..0] == [];
    assert Run(steps[..1]) == s1;
    assert Run(steps[..2]) == s2;
    assert Run(steps[..3]) == s3;
    assert Run(steps[..4]) == s4;
  }
}
