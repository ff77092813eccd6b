/**
 What holds of the grid's store in every reachable state: where rows come from, which answers count, how cursors are
 used.
 */
module TableStoreProofs {
  import opened TableStore

  // ---- rows and cursors ----

  /** Shown or kept rows with a context, and their cursors, are those of one answer to exactly that page and query. */
  ghost predicate Provenance(responses: seq<Response>, d: Data) {
    d.context.Some? ==>
      var c := d.context.value;
      && c.id < |responses| && responses[c.id].page == c.page && responses[c.id].query == c.query
      && d.cacheKey == Some(c.id) && d.rows == Some(c.id) && d.pagination == Some(c.id)
  }

  ghost predicate AllProvenance(s: Store) {
    Provenance(s.responses, s.view) && forall k | k in s.cache :: Provenance(s.responses, s.cache[k])
  }

  /** A cursor leads from a page to the next or previous one of the same query. */
  ghost predicate Adjacent(responses: seq<Response>, n: Navigation) {
    && n.cursor < |responses| && responses[n.cursor].query == n.query
    && n.page == responses[n.cursor].page + (if n.direction == Next then 1 else -1)
    && (if n.direction == Next then responses[n.cursor].next else responses[n.cursor].previous)
  }

  /**
   Cursors on their way: each for its own request's page and query, and one change of page gives its cursor to one load.
   */
  ghost predicate Cursors(s: Store) {
    && (s.navigation.Some? ==>
          && Adjacent(s.responses, s.navigation.value) && s.navigation.value.id < s.navigations
          && forall i | 0 <= i < |s.requests| ::
               s.requests[i].navigation.Some? ==> s.requests[i].navigation.value.id != s.navigation.value.id)
    && (forall i | 0 <= i < |s.requests| :: s.requests[i].navigation.Some? ==>
          var n := s.requests[i].navigation.value;
          && Adjacent(s.responses, n) && n.query == s.requests[i].query && n.page == s.requests[i].page
             && n.id < s.navigations)
    && (forall i, j | 0 <= i < j < |s.requests| ::
          s.requests[i].navigation.Some? && s.requests[j].navigation.Some? ==>
            s.requests[i].navigation.value.id != s.requests[j].navigation.value.id)
  }

  // ---- requests ----

  ghost predicate Wellformed(s: Store, i: nat)
    requires i < |s.requests|
  {
    var r := s.requests[i];
    && r.loadId <= s.counter && r.query.key == Some(r.key)
    && r.data < |s.requests| && (r.kind == DataRequest ==> r.data == i)
    && (r.kind == CountRequest ==>
          var d := s.requests[r.data];
              d.kind == DataRequest && d.loadId == r.loadId && d.query == r.query && d.page == r.page)
    && (!r.answered && !r.cancelled ==> r.pending) && (r.answered ==> !r.pending)
    && (r.kind != DataRequest ==> r.navigation.None?)
  }

  /** A load still waited for is for what the state asks for now. */
  ghost predicate Tied(s: Store, i: nat)
    requires i < |s.requests|
  {
    var r := s.requests[i];
    r.kind != RefreshRequest && r.loadId == s.counter ==>
      !r.cancelled && (!r.answered ==> r.page == s.view.page && r.query == CurrentQuery(s))
  }

  ghost predicate Requests(s: Store) {
    forall i | 0 <= i < |s.requests| :: Wellformed(s, i) && Tied(s, i)
  }

  ghost predicate Good(s: Store) {
    AllProvenance(s) && Cursors(s) && Requests(s)
  }

  // ---- steps that ask for nothing new ----

  predicate SameRequest(a: Request, b: Request) {
    && b == a.(cancelled := b.cancelled, pending := b.pending, answered := b.answered)
    && (a.cancelled ==> b.cancelled) && (a.answered ==> b.answered)
    && (!b.answered && !b.cancelled ==> b.pending) && (b.answered ==> !b.pending)
  }

  predicate SameRequests(a: seq<Request>, b: seq<Request>) {
    |a| == |b| && forall i | 0 <= i < |a| :: SameRequest(a[i], b[i])
  }

  /** Either everything asked for before is superseded, or the state asks for the same as before. */
  ghost predicate Supersedes(s: Store, s': Store) {
    || s'.counter > s.counter
    || (s'.counter == s.counter && s'.view.page == s.view.page && CurrentQuery(s') == CurrentQuery(s)
        && forall i | 0 <= i < |s.requests| && i < |s'.requests| ::
             s.requests[i].kind != RefreshRequest && s.requests[i].loadId == s.counter ==>
               s'.requests[i].cancelled == s.requests[i].cancelled)
  }

  lemma ProvenanceGrows(a: seq<Response>, b: seq<Response>, d: Data)
    requires a <= b && Provenance(a, d)
    ensures Provenance(b, d)
  {
  }

  lemma RequestsKept(s: Store, s': Store)
    requires Requests(s) && SameRequests(s.requests, s'.requests) && Supersedes(s, s')
    ensures Requests(s')
  {
    forall i | 0 <= i < |s'.requests| ensures Wellformed(s', i) && Tied(s', i) {
      assert Wellformed(s, i) && Tied(s, i) && SameRequest(s.requests[i], s'.requests[i]);
      var d := s.requests[i].data;
      assert SameRequest(s.requests[d], s'.requests[d]);
    }
  }

  lemma CursorsKept(s: Store, s': Store)
    requires Cursors(s) && SameRequests(s.requests, s'.requests) && s.responses <= s'.responses
    requires s'.navigations == s.navigations && (s'.navigation == None || s'.navigation == s.navigation)
    ensures Cursors(s')
  {
    assert forall i | 0 <= i < |s.requests| :: SameRequest(s.requests[i], s'.requests[i]);
  }

  lemma GoodKept(s: Store, s': Store)
    requires Good(s) && SameRequests(s.requests, s'.requests) && Supersedes(s, s')
    requires s.responses <= s'.responses && AllProvenance(s')
    requires s'.navigations == s.navigations && (s'.navigation == None || s'.navigation == s.navigation)
    ensures Good(s')
  {
    RequestsKept(s, s');
    CursorsKept(s, s');
  }

  lemma SameRefl(s: Store)
    requires Requests(s)
    ensures SameRequests(s.requests, s.requests)
  {
    forall i | 0 <= i < |s.requests| ensures SameRequest(s.requests[i], s.requests[i]) { assert Wellformed(s, i); }
  }

  // ---- loads ----

  lemma GoodLoad(s: Store, key: TableKey, columns: Option<seq<string>>)
    requires Good(s)
    ensures Good(LoadData(s, key, columns))
  {
    var s' := LoadData(s, key, columns);
    var n := |s.requests|;
    forall i | 0 <= i < |s'.requests| ensures Wellformed(s', i) && Tied(s', i) {
      if i < n {
        assert Wellformed(s, i) && s'.requests[i] == s.requests[i];
        assert s'.requests[s.requests[i].data] == s.requests[s.requests[i].data];
      }
    }
    assert forall i | 0 <= i < n :: s'.requests[i] == s.requests[i];
    assert forall i | n < i < |s'.requests| :: s'.requests[i].navigation == None;
  }

  lemma FinishSame(s: Store, r: nat)
    requires Requests(s) && r < |s.requests|
    ensures SameRequests(s.requests, Finish(s, r).requests)
    ensures Finish(s, r) == s.(requests := Finish(s, r).requests, canCancel := Finish(s, r).canCancel)
    ensures forall i | 0 <= i < |s.requests| :: Finish(s, r).requests[i].cancelled == s.requests[i].cancelled
  {
    forall i | 0 <= i < |s.requests| ensures SameRequest(s.requests[i], Finish(s, r).requests[i]) {
      assert Wellformed(s, i);
    }
  }

  /** The load whose answer is applied asked for exactly what the state still asks for. */
  lemma LatestIsCurrent(s: Store, r: nat)
    requires Good(s) && r < |s.requests| && s.requests[r].kind != RefreshRequest && !s.requests[r].answered
    requires Latest(Finish(s, r), r)
    ensures s.active == Some(s.requests[r].key)
    ensures s.requests[r].page == s.view.page && s.requests[r].query == CurrentQuery(s)
  {
    FinishSame(s, r);
    assert Wellformed(s, r) && Tied(s, r);
  }

  lemma GoodDataArrived(s: Store, r: nat, answer: Response)
    requires Good(s) && Unanswered(s, r, DataRequest)
    ensures Good(DataArrived(s, r, answer))
  {
    var s' := DataArrived(s, r, answer);
    FinishSame(s, r);
    if Latest(Finish(s, r), r) {
      LatestIsCurrent(s, r);
      forall k | k in s.cache ensures Provenance(s'.responses, s.cache[k]) {
        ProvenanceGrows(s.responses, s'.responses, s.cache[k]);
      }
    }
    GoodKept(s, s');
  }

  lemma GoodCountArrived(s: Store, r: nat, total: int)
    requires Good(s) && Unanswered(s, r, CountRequest)
    ensures Good(CountArrived(s, r, total))
  {
    FinishSame(s, r);
    GoodKept(s, CountArrived(s, r, total));
  }

  lemma GoodFinish(s: Store, r: nat)
    requires Good(s) && r < |s.requests|
    ensures Good(Finish(s, r)) && Good(DataFailed(s, r))
  {
    FinishSame(s, r);
    GoodKept(s, Finish(s, r));
    GoodKept(s, DataFailed(s, r));
  }

  lemma GoodCancel(s: Store)
    requires Good(s)
    ensures Good(CancelLoad(s))
  {
    var s' := CancelLoad(s);
    SameRefl(s);
    forall i | 0 <= i < |s.requests| ensures i < |s'.requests| && SameRequest(s.requests[i], s'.requests[i]) {
      assert Wellformed(s, i);
    }
    GoodKept(s, s');
  }

  // ---- the total of a table ----

  lemma GoodRefresh(s: Store, key: TableKey)
    requires Good(s)
    ensures Good(RefreshPagination(s, key))
  {
    RefreshRequests(s, key, RefreshPagination(s, key));
    RefreshCursors(s, key, RefreshPagination(s, key));
    hide Requests, Cursors, CanCancel, QueryOf;
  }

  lemma RefreshRequests(s: Store, key: TableKey, s': Store)
    requires Requests(s) && s' == RefreshPagination(s, key)
    ensures Requests(s')
  {
    hide CanCancel;
    var n := |s.requests|;
    forall i | 0 <= i < |s'.requests| ensures Wellformed(s', i) && Tied(s', i) {
      if i < n {
        assert Wellformed(s, i) && Tied(s, i) && s'.requests[i] == s.requests[i];
        assert s'.requests[s.requests[i].data] == s.requests[s.requests[i].data];
      }
    }
  }

  lemma RefreshCursors(s: Store, key: TableKey, s': Store)
    requires Cursors(s) && s' == RefreshPagination(s, key)
    ensures Cursors(s')
  {
    hide CanCancel, QueryOf, Adjacent;
    assert forall i | 0 <= i < |s.requests| :: s'.requests[i] == s.requests[i];
  }

  lemma GoodTotalled(s: Store, request: Request, total: int)
    requires Good(s)
    ensures Good(Totalled(s, request, total))
  {
    hide ClampedPage;
    SameRefl(s);
    GoodKept(s, Totalled(s, request, total));
  }

  lemma GoodRefreshArrived(s: Store, r: nat, total: int)
    requires Good(s) && Unanswered(s, r, RefreshRequest)
    ensures Good(RefreshArrived(s, r, total))
  {
    GoodTotalled(s, s.requests[r], total);
    GoodFinish(s, r);
    GoodFinish(Totalled(s, s.requests[r], total), r);
  }

  // ---- what the user asks for ----

  lemma GoodSetPage(s: Store, page: int, direction: Option<Direction>)
    requires Good(s)
    ensures Good(SetPage(s, page, direction))
  {
    SameRefl(s);
    var s' := SetPage(s, page, direction);
    if page != s.view.page {
      RequestsKept(s, s');
      assert forall i | 0 <= i < |s.requests| ::
               s.requests[i].navigation.Some? ==> s.requests[i].navigation.value.id < s.navigations;
    }
  }

  lemma GoodRestart(s: Store, view: Data)
    requires Good(s)
    ensures Good(Restart(s, view))
  {
    SameRefl(s);
    GoodKept(s, Restart(s, view));
  }

  lemma GoodParameter(s: Store, step: Step)
    requires Good(s) && (step.ChangePageSize? || step.ChangeSort? || step.DropSort? || step.ChangeFilter?)
    ensures Good(Do(s, step))
  {
    hide Good, Restart, Cleared, WithoutColumn;
    match step
    case ChangePageSize(size) => GoodRestart(s, s.view.(pageSize := size));
    case ChangeSort(sort) => GoodRestart(s, s.view.(sort := sort));
    case DropSort(column) => GoodRestart(s, s.view.(sort := WithoutColumn(s.view.sort, column)));
    case ChangeFilter(filter) => GoodRestart(s, s.view.(filter := filter));
  }

  lemma GoodSwitch(s: Store, key: TableKey)
    requires Good(s)
    ensures Good(SwitchToTable(s, key))
  {
    hide HasRows, CanCancel;
    SameRefl(s);
    var s' := SwitchToTable(s, key);
    if s.active == Some(key)
         && !((exists i :: 0 <= i < |s.requests| && IsCurrent(s.requests[i], s.active)) || Writing(s, s.active)) {
      SameTableAgain(s, key, s');
    } else {
      hide Writing, IsCurrent, Cursors, Requests;
      GoodKept(s, s');
    }
  }

  /** Back to the table that is shown, with nothing under way for it: what it was kept with is shown again. */
  lemma SameTableAgain(s: Store, key: TableKey, s': Store)
    requires Good(s) && s' == SwitchToTable(s, key) && s.active == Some(key) && SameRequests(s.requests, s.requests)
    requires !(exists i :: 0 <= i < |s.requests| && IsCurrent(s.requests[i], s.active)) && !Writing(s, s.active)
    ensures Good(s')
  {
    hide HasRows, CanCancel, Writing;
    forall i | 0 <= i < |s.requests| ensures Wellformed(s', i) && Tied(s', i) {
      assert Wellformed(s, i) && Tied(s, i) && !IsCurrent(s.requests[i], s.active);
    }
    hide Wellformed, Tied, IsCurrent, CurrentQuery;
    CursorsKept(s, s');
  }

  // ---- tables that change or go away ----

  lemma CancelForSame(s: Store, gone: TableKey -> bool)
    requires Requests(s)
    ensures SameRequests(s.requests, CancelFor(s, gone))
    ensures forall i | 0 <= i < |s.requests| :: CancelFor(s, gone)[i].cancelled ==>
              s.requests[i].cancelled || (s.requests[i].pending && gone(s.requests[i].key))
  {
    forall i | 0 <= i < |s.requests| ensures SameRequest(s.requests[i], CancelFor(s, gone)[i]) {
      assert Wellformed(s, i);
    }
  }

  /** Cancelling the requests of tables that are not shown cancels no load still waited for. */
  lemma CancelForOthers(s: Store, gone: TableKey -> bool, i: nat)
    requires Requests(s) && i < |s.requests| && !(s.active.Some? && gone(s.active.value))
    requires s.requests[i].kind != RefreshRequest && s.requests[i].loadId == s.counter && !s.requests[i].answered
    ensures CancelFor(s, gone)[i].cancelled == s.requests[i].cancelled
  {
    assert Wellformed(s, i) && Tied(s, i);
  }

  lemma GoodRemove(s: Store, gone: TableKey -> bool)
    requires Good(s)
    ensures Good(Remove(s, gone))
  {
    CancelForSame(s, gone);
    var s' := Remove(s, gone);
    if !(s.active.Some? && gone(s.active.value)) { OthersSupersede(s, s', gone); }
    GoodKept(s, s');
  }

  lemma OthersSupersede(s: Store, s': Store, gone: TableKey -> bool)
    requires Requests(s) && !(s.active.Some? && gone(s.active.value)) && s'.requests == CancelFor(s, gone)
    requires s'.counter == s.counter && s'.view.page == s.view.page && CurrentQuery(s') == CurrentQuery(s)
    ensures Supersedes(s, s')
  {
    forall i | 0 <= i < |s.requests| && s.requests[i].kind != RefreshRequest && s.requests[i].loadId == s.counter
      ensures s'.requests[i].cancelled == s.requests[i].cancelled
    {
      assert Wellformed(s, i);
      if !s.requests[i].answered { CancelForOthers(s, gone, i); }
    }
  }

  lemma GoodStale(s: Store, key: TableKey)
    requires Good(s)
    ensures Good(MarkStale(s, key))
  {
    var gone := k => k == key;
    CancelForSame(s, gone);
    var s' := MarkStale(s, key);
    assert s'.requests == CancelFor(s, gone);
    if s.active != Some(key) { OthersSupersede(s, s', gone); }
    GoodKept(s, s');
  }

  lemma GoodCleared(s: Store, key: TableKey)
    requires Good(s)
    ensures Good(AfterCleared(s, key))
  {
    SameRefl(s);
    hide LoadData, WithoutCounts, Cursors, Requests, SameRequests, QueryOf;
    var left := s.(cache := map k | k in s.cache && k != key :: s.cache[k], counts := WithoutCounts(s, k => k == key));
    if s.active == Some(key) {
      var cleared := left.(counter := s.counter + 1, view := Cleared(s.view), navigation := None);
      GoodKept(s, cleared);
      GoodLoad(cleared, key, s.view.lastColumns);
    } else {
      GoodKept(s, left);
    }
  }

  lemma GoodEvict(s: Store, key: TableKey, id: nat)
    requires Good(s)
    ensures Good(Evict(s, key, id))
  {
    SameRefl(s);
    GoodKept(s, Evict(s, key, id));
  }

  // ---- writes and the reload after them ----

  lemma GoodWrites(s: Store, w: nat)
    requires Good(s)
    ensures forall key :: Good(BeginWrite(s, key))
    ensures w < |s.writes| ==> Good(EndWrite(s, w)) && Good(WriteFailed(s, w)) && Good(BeginReload(s, w))
  {
    SameRefl(s);
    forall key ensures Good(BeginWrite(s, key)) { GoodKept(s, BeginWrite(s, key)); }
    if w < |s.writes| {
      GoodKept(s, EndWrite(s, w));
      GoodKept(s, WriteFailed(s, w));
      GoodKept(s, BeginReload(s, w));
    }
  }

  lemma GoodApply(s: Store, r: Reload, answer: Response)
    requires Good(s)
    ensures Good(ApplyReload(s, r, answer))
  {
    SameRefl(s);
    ApplyProvenance(s, r, answer);
    hide Cursors, Requests, SameRequests, AllProvenance, Shown, WithoutCounts;
    GoodKept(s, ApplyReload(s, r, answer));
  }

  lemma ApplyProvenance(s: Store, r: Reload, answer: Response)
    requires AllProvenance(s)
    ensures AllProvenance(ApplyReload(s, r, answer))
  {
    var s' := ApplyReload(s, r, answer);
    assert s.responses <= s'.responses;
    forall k | k in s.cache ensures Provenance(s'.responses, s.cache[k]) {
      ProvenanceGrows(s.responses, s'.responses, s.cache[k]);
    }
    ProvenanceGrows(s.responses, s'.responses, s.view);
  }

  lemma GoodReload(s: Store, i: nat, answer: Response)
    requires Good(s) && i < |s.reloads| && s.reloads[i].write < |s.writes|
    ensures Good(ReloadArrived(s, i, answer))
  {
    SameRefl(s);
    var r := s.reloads[i];
    var done := s.(reloads := s.reloads[i := r.(done := true)]);
    GoodKept(s, done);
    GoodApply(done, r, answer);
    hide Good, ApplyReload;
    GoodWrites(done, r.write);
    GoodWrites(ApplyReload(done, r, answer), r.write);
  }

  lemma GoodReset(s: Store)
    requires Good(s)
    ensures Good(Reset(s))
  {
    var s' := Reset(s);
    forall i | 0 <= i < |s.requests| ensures SameRequest(s.requests[i], s'.requests[i]) { assert Wellformed(s, i); }
    GoodKept(s, s');
  }

  // ---- every reachable state ----

  lemma GoodStep(s: Store, step: Step)
    requires Good(s)
    ensures Good(Do(s, step))
  {
    hide Good, Latest, Restart, Cleared, WithoutColumn, LoadData, DataArrived, DataFailed, CountArrived, Finish,
         CancelLoad,
         RefreshPagination, RefreshArrived, SetPage, SetPageSize, SetSort, RemoveSort, SetFilter,
         SwitchToTable, Remove, MarkStale, AfterCleared, Evict, BeginWrite, BeginReload, ReloadArrived, WriteFailed,
         EndWrite, Reset;
    match step
    case Load(key, columns) => GoodLoad(s, key, columns);
    case DataAnswer(r, answer) => if Unanswered(s, r, DataRequest) { GoodDataArrived(s, r, answer); }
    case DataError(r) => if Unanswered(s, r, DataRequest) { GoodFinish(s, r); }
    case CountAnswer(r, total) => if Unanswered(s, r, CountRequest) { GoodCountArrived(s, r, total); }
    case CountError(r) => if Unanswered(s, r, CountRequest) { GoodFinish(s, r); }
    case Cancel => GoodCancel(s);
    case Refresh(key) => GoodRefresh(s, key);
    case RefreshAnswer(r, total) => if Unanswered(s, r, RefreshRequest) { GoodRefreshArrived(s, r, total); }
    case RefreshError(r) => if Unanswered(s, r, RefreshRequest) { GoodFinish(s, r); }
    case ChangePage(page, direction) => GoodSetPage(s, page, direction);
    case ChangePageSize(_) => GoodParameter(s, step);
    case ChangeSort(_) => GoodParameter(s, step);
    case DropSort(_) => GoodParameter(s, step);
    case ChangeFilter(_) => GoodParameter(s, step);
    case Switch(key) => GoodSwitch(s, key);
    case CloseTable(key) => GoodRemove(s, k => k == key);
    case CloseConnection(conn) => GoodRemove(s, (k: TableKey) => k.conn == conn);
    case Stale(key) => GoodStale(s, key);
    case Emptied(key) => GoodCleared(s, key);
    case Evicted(key, id) => GoodEvict(s, key, id);
    case WriteBegins(key) => GoodWrites(s, 0);
    case WriteDone(w) => GoodWrites(s, w);
    case ReloadAnswer(i, answer) => if i < |s.reloads| && s.reloads[i].write < |s.writes| { GoodReload(s, i, answer); }
    case WriteError(w) => GoodWrites(s, w);
    case ResetAll => GoodReset(s);
  }

  function Run(steps: seq<Step>): Store {
    if steps == [] then Initial() else Do(Run(steps[..|steps| - 1]), steps[|steps| - 1])
  }

  /** Every reachable state. */
  lemma {:induction false} Reachable(steps: seq<Step>)
    ensures AllProvenance(Run(steps)) && Cursors(Run(steps)) && Requests(Run(steps))
  {
    if steps != [] {
      Reachable(steps[..|steps| - 1]);
      GoodStep(Run(steps[..|steps| - 1]), steps[|steps| - 1]);
    }
  }

  predicate SameData(s: Store, s': Store) {
    s'.view == s.view && s'.cache == s.cache && s'.counts == s.counts
  }

  /**
   In every reachable state: the answer of a cancelled or superseded load changes nothing that is shown or
   kept, and one that does was asked for by exactly what is asked for now.
   */
  lemma LatestRequestSafety(steps: seq<Step>, s: Store, r: nat, answer: Response)
    requires s == Run(steps) && Unanswered(s, r, DataRequest)
    ensures var s' := DataArrived(s, r, answer);
            || SameData(s, s')
            || (s.active == Some(s.requests[r].key) && s.requests[r].page == s.view.page
                && s.requests[r].query == CurrentQuery(s)
                && s'.view.context == Some(Context(s.view.page, CurrentQuery(s), |s.responses|))
                && s'.view == Shown(s.view, |s.responses|, s.view.page, CurrentQuery(s)))
    ensures s.requests[r].cancelled || s.requests[r].loadId != s.counter ==> SameData(s, DataArrived(s, r, answer))
    ensures s.requests[r].cancelled || s.requests[r].loadId != s.counter ==> SameData(s, DataFailed(s, r))
  {
    Reachable(steps);
    assert Wellformed(s, r);
    hide Run;
    if Latest(Finish(s, r), r) { LatestIsCurrent(s, r); }
  }

  /** The same of the total, which changes nothing else. */
  lemma LatestCountSafety(steps: seq<Step>, s: Store, r: nat, total: int)
    requires s == Run(steps) && Unanswered(s, r, CountRequest)
    ensures var (request, s') := (s.requests[r], CountArrived(s, r, total));
            || SameData(s, s')
            || (s.active == Some(request.key) && request.page == s.view.page && request.query == CurrentQuery(s)
                && s'.view == s.view.(total := total, totalStale := false)
                && s'.cache == Counted(s.cache, request.key, s.view.filter, total)
                && s'.counts == s.counts[(request.key, s.view.filter) := total])
    ensures s.requests[r].data < |s.requests|
    ensures s.requests[r].cancelled || s.requests[s.requests[r].data].cancelled || s.requests[r].loadId != s.counter ==>
              SameData(s, CountArrived(s, r, total))
  {
    Reachable(steps);
    assert Wellformed(s, r) && Tied(s, r);
    hide Run;
    if Latest(Finish(s, r), r) { LatestIsCurrent(s, r); }
  }

  /**
   A fresh total that was asked for by itself: none when cancelled; what is shown changes only for the table
   and the filter it was asked for, by its total and at most its page, and then no load from before still counts.
   */
  lemma LatestRefreshSafety(s: Store, r: nat, total: int)
    requires Unanswered(s, r, RefreshRequest)
    ensures var (request, s') := (s.requests[r], RefreshArrived(s, r, total));
            && (request.cancelled ==> SameData(s, s'))
            && s'.view.rows == s.view.rows && s'.view.columns == s.view.columns && s'.active == s.active
            && (s'.view != s.view ==>
                  s.active == Some(request.key) && request.active && s.view.filter == request.query.filter)
            && (s'.view.page != s.view.page ==>
                  s'.view.context == None && s'.view.pagination == None && s'.navigation == None
                  && s'.counter == s.counter + 1)
            && (s'.view.page == s.view.page ==>
                  s'.view == s.view || s'.view == s.view.(total := total, totalStale := false))
  {
    hide ClampedPage, CanCancel, Counted;
  }

  /** What is known of a table's total under a filter after an answer, and what is shown of it. */
  lemma RefreshCounts(s: Store, r: nat, total: int)
    requires Unanswered(s, r, RefreshRequest)
    ensures var (request, s') := (s.requests[r], RefreshArrived(s, r, total));
            && s'.counts
               == (if request.cancelled then s.counts else s.counts[(request.key, request.query.filter) := total])
            && s'.active == s.active && s'.view.filter == s.view.filter
            && (!request.cancelled && request.active && s.active == Some(request.key)
                && s.view.filter == request.query.filter ==>
                  s'.view.total == total)
            && |s'.requests| == |s.requests|
               && (forall i | 0 <= i < |s.requests| && i != r :: s'.requests[i] == s.requests[i])
  {
    hide ClampedPage, CanCancel, Counted;
  }

  predicate SameCount(a: Request, b: Request) { a.key == b.key && a.query.filter == b.query.filter }

  /**
   Of two refreshes under way at once, the total of the one that began last is what remains, unless the other is
   answered after it, for the same table and filter, without having been cancelled.
   */
  lemma OlderTotalIff(s: Store, older: nat, newer: nat, t: int, u: int)
    requires older < newer && Unanswered(s, older, RefreshRequest) && Unanswered(s, newer, RefreshRequest)
    requires !s.requests[newer].cancelled && t != u
    ensures var (a, b) := (s.requests[older], s.requests[newer]);
            var (olderLast, newerLast) := (RefreshArrived(RefreshArrived(s, newer, u), older, t),
                                           RefreshArrived(RefreshArrived(s, older, t), newer, u));
            var k := (b.key, b.query.filter);
            && k in newerLast.counts && newerLast.counts[k] == u
            && k in olderLast.counts && olderLast.counts[k] == (if SameCount(a, b) && !a.cancelled then t else u)
            && (SameCount(a, b) && !a.cancelled && a.active && s.active == Some(a.key)
                && s.view.filter == a.query.filter ==>
                  olderLast.view.total == t)
  {
    RefreshCounts(s, newer, u);
    RefreshCounts(s, older, t);
    hide RefreshArrived;
    RefreshCounts(RefreshArrived(s, newer, u), older, t);
    RefreshCounts(RefreshArrived(s, older, t), newer, u);
  }

  /** Two refreshes of the table that is shown; the first is answered last. */
  function Overtaken(key: TableKey, t: int, u: int): seq<Step> {
    [Switch(key), Refresh(key), Refresh(key), RefreshAnswer(1, u), RefreshAnswer(0, t)]
  }

  lemma {:induction false} RunAt(steps: seq<Step>, i: nat)
    requires i < |steps|
    ensures Run(steps[..i + 1]) == Do(Run(steps[..i]), steps[i])
  {
    hide Do;
    assert steps[..i + 1][..i] == steps[..i];
  }

  /** What is shown then is the older total. */
  lemma {:induction false} OlderTotalShown(key: TableKey, t: int, u: int)
    ensures var s := Run(Overtaken(key, t, u));
            s.active == Some(key) && s.view.total == t && (key, s.view.filter) in s.counts
                                                && s.counts[(key, s.view.filter)] == t
  {
    var all := Overtaken(key, t, u);
    RunAt(all, 0);
    RunAt(all, 1);
    RunAt(all, 2);
    RunAt(all, 3);
    RunAt(all, 4);
    assert all[..0] == [] && all[..5] == all && Run(all[..0]) == Initial();
    hide Run, Do;
    OvertakenEnd(key, t, u, Run(all[..1]), Run(all[..2]), Run(all[..3]), Run(all[..4]), Run(all));
  }

  lemma OvertakenEnd(key: TableKey, t: int, u: int, s1: Store, s2: Store, s3: Store, s4: Store, s5: Store)
    requires s1 == Do(Initial(), Switch(key)) && s2 == Do(s1, Refresh(key)) && s3 == Do(s2, Refresh(key))
    requires s4 == Do(s3, RefreshAnswer(1, u)) && s5 == Do(s4, RefreshAnswer(0, t))
    ensures s5.active == Some(key) && s5.view.total == t && (key, s5.view.filter) in s5.counts
            && s5.counts[(key, s5.view.filter)] == t
  {
    hide SwitchToTable, RefreshPagination, RefreshArrived;
    OvertakenStart(key, s1, s2, s3);
    RefreshCounts(s3, 1, u);
    RefreshCounts(s4, 0, t);
  }

  lemma OvertakenStart(key: TableKey, s1: Store, s2: Store, s3: Store)
    requires s1 == SwitchToTable(Initial(), key) && s2 == RefreshPagination(s1, key) && s3 == RefreshPagination(s2, key)
    ensures s3.active == Some(key) && |s3.requests| == 2 && Unanswered(s3, 0, RefreshRequest)
            && Unanswered(s3, 1, RefreshRequest)
    ensures forall i | 0 <= i < 2 ::
              var r := s3.requests[i]; r.key == key && r.query.filter == s3.view.filter && r.active && !r.cancelled
  {
    hide CanCancel, HasRows;
  }

  /**
   Every cursor ever sent continues the page and query it came with, for the request's own page and query; one
   change of page gives its cursor to one request at most.
   */
  lemma CursorSafety(steps: seq<Step>, s: Store, i: nat)
    requires s == Run(steps) && i < |s.requests| && s.requests[i].navigation.Some?
    ensures Adjacent(s.responses, s.requests[i].navigation.value)
    ensures s.responses[s.requests[i].navigation.value.cursor].query == s.requests[i].query
    ensures s.requests[i].navigation.value.page == s.requests[i].page
    ensures forall j | 0 <= j < |s.requests| && j != i && s.requests[j].navigation.Some? ::
              s.requests[j].navigation.value.id != s.requests[i].navigation.value.id
  {
    Reachable(steps);
    hide Run;
  }
}
