/** The reload after a write: when its answer is shown, it is of the page and query that are asked for now. */
module TableStoreReloads {
  import opened TableStore
  import opened TableStoreProofs

  /** A reload whose write is pending and whose load is the latest is for what its table is shown with. */
  ghost predicate ReloadTied(s: Store, r: Reload) {
    && r.write < |s.writes| && s.writes[r.write].key == r.key && r.loadId <= s.counter && r.query.key == Some(r.key)
    && (!r.done && s.writes[r.write].pending && s.active == Some(r.key) && r.loadId == s.counter ==>
          r.page == s.view.page && r.query == CurrentQuery(s))
  }

  ghost predicate Tidy(s: Store) {
    forall i | 0 <= i < |s.reloads| :: ReloadTied(s, s.reloads[i])
  }

  /** Writes only end, and reloads only get done. */
  ghost predicate Later(s: Store, s': Store) {
    && s.counter <= s'.counter && |s.writes| <= |s'.writes| && |s.reloads| == |s'.reloads|
    && (forall w | 0 <= w < |s.writes| ::
          s'.writes[w].key == s.writes[w].key && (s'.writes[w].pending ==> s.writes[w].pending))
    && (forall i | 0 <= i < |s.reloads| ::
          s'.reloads[i] == s.reloads[i].(done := s'.reloads[i].done) && (s.reloads[i].done ==> s'.reloads[i].done))
  }

  /**
   Then they stay tied, if loads from before are superseded, or what is asked for stays, or nothing is being written to
   the table.
   */
  lemma TidyKept(s: Store, s': Store)
    requires Tidy(s) && Later(s, s')
    requires || s'.counter > s.counter
             || (s'.active == s.active && s'.view.page == s.view.page && CurrentQuery(s') == CurrentQuery(s))
             || (s'.active == s.active && !Writing(s, s.active))
             || s'.active == None
    ensures Tidy(s')
  {
    forall i | 0 <= i < |s'.reloads| ensures ReloadTied(s', s'.reloads[i]) {
      assert ReloadTied(s, s.reloads[i]);
    }
  }

  lemma LoadTidy(s: Store, key: TableKey, columns: Option<seq<string>>)
    requires Tidy(s)
    ensures Tidy(LoadData(s, key, columns)) && Tidy(RefreshPagination(s, key))
  {
    hide CanCancel, Tidy;
    TidyKept(s, LoadData(s, key, columns));
    TidyKept(s, RefreshPagination(s, key));
  }

  lemma ArrivalTidy(s: Store, r: nat, answer: Response)
    requires Tidy(s) && r < |s.requests|
    ensures Tidy(DataArrived(s, r, answer)) && Tidy(Finish(s, r)) && Tidy(DataFailed(s, r))
  {
    hide CanCancel, Latest, Tidy;
    TidyKept(s, DataArrived(s, r, answer));
    TidyKept(s, Finish(s, r));
    TidyKept(s, DataFailed(s, r));
  }

  lemma TotalTidy(s: Store, r: nat, total: int)
    requires Tidy(s) && r < |s.requests|
    ensures Tidy(CountArrived(s, r, total)) && Tidy(RefreshArrived(s, r, total))
  {
    hide CanCancel, Latest, Tidy, ClampedPage, Counted;
    TidyKept(s, CountArrived(s, r, total));
    TidyKept(s, RefreshArrived(s, r, total));
  }

  lemma ViewTidy(s: Store, view: Data, page: int, direction: Option<Direction>)
    requires Tidy(s)
    ensures Tidy(Restart(s, view)) && Tidy(SetPage(s, page, direction)) && Tidy(CancelLoad(s))
  {
    hide CanCancel, IsCurrent, Tidy;
    TidyKept(s, Restart(s, view));
    TidyKept(s, SetPage(s, page, direction));
    TidyKept(s, CancelLoad(s));
  }

  lemma SwitchTidy(s: Store, key: TableKey)
    requires Tidy(s)
    ensures Tidy(SwitchToTable(s, key))
  {
    hide CanCancel, HasRows, IsCurrent, Tidy, Writing;
    TidyKept(s, SwitchToTable(s, key));
  }

  lemma RemoveTidy(s: Store, gone: TableKey -> bool)
    requires Tidy(s)
    ensures Tidy(Remove(s, gone)) && Tidy(Reset(s))
  {
    hide CancelFor, WithoutCounts, Tidy;
    TidyKept(s, Remove(s, gone));
    TidyKept(s, Reset(s));
  }

  lemma StaleTidy(s: Store, key: TableKey)
    requires Tidy(s)
    ensures Tidy(MarkStale(s, key))
  {
    hide CancelFor, WithoutCounts, Tidy;
    TidyKept(s, MarkStale(s, key));
  }

  lemma EvictTidy(s: Store, key: TableKey, id: nat)
    requires Tidy(s)
    ensures Tidy(Evict(s, key, id))
  {
    hide Tidy;
    TidyKept(s, Evict(s, key, id));
  }

  lemma ClearedTidy(s: Store, key: TableKey)
    requires Tidy(s)
    ensures Tidy(AfterCleared(s, key))
  {
    hide LoadData, WithoutCounts, Tidy;
    var left := s.(cache := map k | k in s.cache && k != key :: s.cache[k], counts := WithoutCounts(s, k => k == key));
    var cleared := left.(counter := s.counter + 1, view := Cleared(s.view), navigation := None);
    TidyKept(s, left);
    TidyKept(s, cleared);
    LoadTidy(cleared, key, s.view.lastColumns);
  }

  lemma WriteTidy(s: Store, w: nat, key: TableKey)
    requires Tidy(s)
    ensures Tidy(BeginWrite(s, key))
    ensures w < |s.writes| ==> Tidy(EndWrite(s, w)) && Tidy(WriteFailed(s, w))
  {
    hide CanCancel, Tidy;
    TidyKept(s, BeginWrite(s, key));
    if w < |s.writes| {
      TidyKept(s, EndWrite(s, w));
      TidyKept(s, WriteFailed(s, w));
    }
  }

  /** The reload begins with what its table is shown or kept with. */
  lemma BeginTidy(s: Store, w: nat)
    requires Tidy(s) && w < |s.writes|
    ensures Tidy(BeginReload(s, w))
  {
    var s' := BeginReload(s, w);
    forall i | 0 <= i < |s'.reloads| ensures ReloadTied(s', s'.reloads[i]) {
      if i < |s.reloads| { assert ReloadTied(s, s.reloads[i]); }
    }
  }

  lemma ReloadTidy(s: Store, i: nat, answer: Response)
    requires Tidy(s) && i < |s.reloads| && s.reloads[i].write < |s.writes|
    ensures Tidy(ReloadArrived(s, i, answer))
  {
    var r := s.reloads[i];
    var done := s.(reloads := s.reloads[i := r.(done := true)]);
    hide CanCancel, Applies, Tidy, EndWrite, WriteFailed;
    TidyKept(s, done);
    TidyKept(done, ApplyReload(done, r, answer));
    assert ApplyReload(done, r, answer).writes == s.writes;
    hide ApplyReload;
    WriteTidy(done, r.write, r.key);
    WriteTidy(ApplyReload(done, r, answer), r.write, r.key);
  }

  lemma TidyStep(s: Store, step: Step)
    requires Tidy(s)
    ensures Tidy(Do(s, step))
  {
    hide Tidy, Restart, WithoutColumn, LoadData, DataArrived, DataFailed, CountArrived, Finish, CancelLoad,
         RefreshPagination,
         RefreshArrived, SetPage, SwitchToTable, Remove, MarkStale, AfterCleared, Evict, BeginWrite, BeginReload,
         ReloadArrived, WriteFailed,
         EndWrite, Reset;
    var none := Response(0, Query(None, 0, [], "", None), 0, 0, false, false);
    match step
    case Load(key, columns) => LoadTidy(s, key, columns);
    case DataAnswer(r, answer) => if r < |s.requests| { ArrivalTidy(s, r, answer); }
    case DataError(r) => if r < |s.requests| { ArrivalTidy(s, r, none); }
    case CountAnswer(r, total) => if r < |s.requests| { TotalTidy(s, r, total); }
    case CountError(r) => if r < |s.requests| { ArrivalTidy(s, r, none); }
    case Cancel => ViewTidy(s, s.view, 0, None);
    case Refresh(key) => LoadTidy(s, key, None);
    case RefreshAnswer(r, total) => if r < |s.requests| { TotalTidy(s, r, total); }
    case RefreshError(r) => if r < |s.requests| { ArrivalTidy(s, r, none); }
    case ChangePage(page, direction) => ViewTidy(s, s.view, page, direction);
    case ChangePageSize(size) => ViewTidy(s, s.view.(pageSize := size), 0, None);
    case ChangeSort(sort) => ViewTidy(s, s.view.(sort := sort), 0, None);
    case DropSort(column) => ViewTidy(s, s.view.(sort := WithoutColumn(s.view.sort, column)), 0, None);
    case ChangeFilter(filter) => ViewTidy(s, s.view.(filter := filter), 0, None);
    case Switch(key) => SwitchTidy(s, key);
    case CloseTable(key) => RemoveTidy(s, k => k == key);
    case CloseConnection(conn) => RemoveTidy(s, (k: TableKey) => k.conn == conn);
    case Stale(key) => StaleTidy(s, key);
    case Emptied(key) => ClearedTidy(s, key);
    case Evicted(key, id) => EvictTidy(s, key, id);
    case WriteBegins(key) => WriteTidy(s, 0, key);
    case WriteDone(w) => if w < |s.writes| { BeginTidy(s, w); WriteTidy(s, w, s.writes[w].key); }
    case ReloadAnswer(i, answer) => if i < |s.reloads| && s.reloads[i].write < |s.writes| { ReloadTidy(s, i, answer); }
    case WriteError(w) => if w < |s.writes| { WriteTidy(s, w, s.writes[w].key); }
    case ResetAll => RemoveTidy(s, _ => true);
  }

  lemma {:induction false} TidyRun(steps: seq<Step>)
    ensures Tidy(Run(steps))
  {
    if steps != [] {
      TidyRun(steps[..|steps| - 1]);
      TidyStep(Run(steps[..|steps| - 1]), steps[|steps| - 1]);
    }
  }

  /**
   In every reachable state: the answer to a reload changes what is shown only if nothing was asked for since, and it
   is of the table, the page and the query that are asked for now; another's changes at most what is kept of its own
   table.  While no table is shown, the answer is, but its context is not that of the current query: no cursor of it is
   used.
   */
  lemma LatestReloadSafety(steps: seq<Step>, s: Store, i: nat, answer: Response)
    requires s == Run(steps) && i < |s.reloads| && !s.reloads[i].done
    ensures s.reloads[i].write < |s.writes|
    ensures var (r, s') := (s.reloads[i], ReloadArrived(s, i, answer));
            && (s'.view != s.view ==>
                  && r.loadId == s.counter && s.writes[r.write].pending
                  && s'.view.context == Some(Context(r.page, r.query, |s.responses|))
                     && s'.view.rows == Some(|s.responses|)
                  && (s.active.Some? ==> s.active == Some(r.key) && r.page == s.view.page && r.query == CurrentQuery(s))
                  && (s.active.None? ==> r.query != CurrentQuery(s')))
            && (forall k | k != r.key :: k in s'.cache <==> k in s.cache)
            && (forall k | k != r.key && k in s.cache :: s'.cache[k] == s.cache[k])
            && (!Applies(s, r) ==> SameData(s, s'))
  {
    TidyRun(steps);
    hide Run, CanCancel;
    assert ReloadTied(s, s.reloads[i]);
  }
}
