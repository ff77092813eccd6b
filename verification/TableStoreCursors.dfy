/** When a cursor is sent again: while the page it came with can still be gone on from. */
module TableStoreCursors {
  import opened TableStore
  import opened TableStoreProofs
  import opened TableStoreSharing

  /** A page from which its cursors can be used: its answer's context, under the parameters it was asked with. */
  predicate HeldBy(d: Data, c: nat) {
    d.context.Some? && d.context.value.id == c
    && var q := d.context.value.query; d.pageSize == q.pageSize && d.sort == q.sort && d.filter == q.filter
  }

  /** An answer whose cursors may still be sent: it is shown, or kept, or one of them is on its way. */
  predicate Held(s: Store, c: nat) {
    || HeldBy(s.view, c)
    || (exists k | k in s.cache :: HeldBy(s.cache[k], c))
    || (s.navigation.Some? && s.navigation.value.cursor == c)
  }

  /** Some request from the n-th on carries a cursor of the answer. */
  predicate SentFrom(s: Store, n: nat, c: nat) {
    exists i :: n <= i < |s.requests| && s.requests[i].navigation.Some? && s.requests[i].navigation.value.cursor == c
  }

  // ---- a cursor on its way is for what is asked for now ----

  ghost predicate OnItsWay(s: Store, n: Navigation) {
    && n.page == s.view.page && n.query == QueryOf(n.query.key, s.view, n.query.columns) && n.query.key.Some?
    && forall i | 0 <= i < |s.requests| && s.requests[i].kind != RefreshRequest :: s.requests[i].loadId < s.counter
  }

  ghost predicate Navigable(s: Store) {
    (s.navigation.Some? ==> OnItsWay(s, s.navigation.value)) && Keyed(s)
  }

  /** The loads asked for are those asked for before. */
  ghost predicate SameLoads(a: seq<Request>, b: seq<Request>) {
    && |a| <= |b|
    && (forall i | 0 <= i < |b|
          && b[i].kind != RefreshRequest :: i < |a| && a[i].kind == b[i].kind && b[i].loadId == a[i].loadId)
    && (forall i | 0 <= i < |b| && b[i].navigation.Some? :: i < |a| && b[i].navigation == a[i].navigation)
  }

  predicate SameParameters(a: Data, b: Data) {
    a.page == b.page && a.pageSize == b.pageSize && a.sort == b.sort && a.filter == b.filter
  }

  /** Answers and reloads belong to tables. */
  ghost predicate Keyed(s: Store) {
    && (forall i | 0 <= i < |s.responses| :: s.responses[i].query.key.Some?)
    && (forall i | 0 <= i < |s.reloads| :: s.reloads[i].query.key.Some?)
  }

  lemma NavigableKept(s: Store, s': Store)
    requires Navigable(s) && Keyed(s')
    requires s'.navigation == None ||
             (s'.navigation == s.navigation && s'.counter == s.counter && SameParameters(s.view, s'.view)
              && SameLoads(s.requests, s'.requests))
    ensures Navigable(s')
  {
  }

  lemma SetPageNavigable(s: Store, page: int, direction: Option<Direction>)
    requires Good(s) && Navigable(s)
    ensures Navigable(SetPage(s, page, direction))
  {
    var s' := SetPage(s, page, direction);
    if s'.navigation.Some? && s' != s {
      assert Provenance(s.responses, s.view);
      forall i | 0 <= i < |s.requests| ensures s.requests[i].loadId < s'.counter { assert Wellformed(s, i); }
    }
  }

  lemma FinishNavigable(s: Store, r: nat)
    requires Navigable(s) && r < |s.requests|
    ensures Navigable(Finish(s, r)) && Navigable(DataFailed(s, r)) && SameLoads(s.requests, Finish(s, r).requests)
  {
    hide CanCancel, Latest;
    NavigableKept(s, Finish(s, r));
    NavigableKept(s, DataFailed(s, r));
  }

  lemma ArrivalNavigable(s: Store, r: nat, answer: Response)
    requires Good(s) && Navigable(s) && r < |s.requests|
    ensures Navigable(DataArrived(s, r, answer))
  {
    assert s.requests[r].query.key.Some? by { assert Wellformed(s, r); }
    assert Keyed(s);
    hide CanCancel, Latest, Good, Navigable;
    NavigableKept(s, DataArrived(s, r, answer));
  }

  lemma CountNavigable(s: Store, r: nat, total: int)
    requires Navigable(s) && r < |s.requests|
    ensures Navigable(CountArrived(s, r, total))
  {
    assert Keyed(s);
    hide CanCancel, Latest, Navigable, Counted;
    NavigableKept(s, CountArrived(s, r, total));
  }

  lemma RefreshNavigable(s: Store, r: nat, total: int)
    requires Navigable(s) && r < |s.requests|
    ensures Navigable(RefreshArrived(s, r, total))
  {
    assert Keyed(s);
    hide CanCancel, ClampedPage, Navigable, Finish, Counted;
    FinishNavigable(s, r);
    var told := Totalled(s, s.requests[r], total);
    NavigableKept(s, told);
    hide Totalled;
    FinishNavigable(told, r);
  }

  lemma LoadNavigable(s: Store, key: TableKey, columns: Option<seq<string>>)
    requires Navigable(s)
    ensures Navigable(LoadData(s, key, columns)) && Navigable(RefreshPagination(s, key))
  {
    assert Keyed(s);
    hide CanCancel, QueryOf, Navigable;
    NavigableKept(s, LoadData(s, key, columns));
    NavigableKept(s, RefreshPagination(s, key));
  }

  lemma SwitchNavigable(s: Store, key: TableKey, id: nat)
    requires Navigable(s)
    ensures Navigable(SwitchToTable(s, key)) && Navigable(Evict(s, key, id))
  {
    assert Keyed(s);
    hide CanCancel, HasRows, Writing, IsCurrent, CurrentQuery, Navigable;
    NavigableKept(s, SwitchToTable(s, key));
    NavigableKept(s, Evict(s, key, id));
  }

  lemma RemoveNavigable(s: Store, gone: TableKey -> bool)
    requires Navigable(s)
    ensures Navigable(Remove(s, gone))
  {
    assert Keyed(s);
    hide WithoutCounts, StopWrites, Navigable;
    NavigableKept(s, Remove(s, gone));
  }

  lemma StaleNavigable(s: Store, key: TableKey)
    requires Navigable(s)
    ensures Navigable(MarkStale(s, key)) && Navigable(AfterCleared(s, key))
  {
    assert Keyed(s);
    hide CanCancel, QueryOf, WithoutCounts, Navigable;
    NavigableKept(s, MarkStale(s, key));
    NavigableKept(s, AfterCleared(s, key));
  }

  lemma OtherStepsNavigable(s: Store, key: TableKey, view: Data)
    requires Navigable(s)
    ensures Navigable(CancelLoad(s)) && Navigable(Restart(s, view)) && Navigable(BeginWrite(s, key))
            && Navigable(Reset(s))
  {
    assert Keyed(s);
    hide CanCancel, IsCurrent, StopWrites, Navigable;
    NavigableKept(s, CancelLoad(s));
    NavigableKept(s, Restart(s, view));
    NavigableKept(s, BeginWrite(s, key));
    NavigableKept(s, Reset(s));
  }

  lemma WritesNavigable(s: Store, w: nat)
    requires Navigable(s) && w < |s.writes|
    ensures Navigable(EndWrite(s, w)) && Navigable(WriteFailed(s, w)) && Navigable(BeginReload(s, w))
  {
    assert Keyed(s);
    hide CanCancel, Navigable;
    NavigableKept(s, EndWrite(s, w));
    NavigableKept(s, WriteFailed(s, w));
    NavigableKept(s, BeginReload(s, w));
  }

  lemma ReloadNavigable(s: Store, i: nat, answer: Response)
    requires Navigable(s) && i < |s.reloads| && s.reloads[i].write < |s.writes|
    ensures Navigable(ReloadArrived(s, i, answer))
  {
    var r := s.reloads[i];
    var done := s.(reloads := s.reloads[i := r.(done := true)]);
    assert Keyed(s) && Keyed(done) && Keyed(ApplyReload(done, r, answer));
    hide CanCancel, Applies, Navigable, Keyed, EndWrite;
    NavigableKept(s, done);
    NavigableKept(done, ApplyReload(done, r, answer));
    hide ApplyReload;
    WritesNavigable(done, r.write);
    if Applies(s, r) {
      assert |ApplyReload(done, r, answer).writes| == |s.writes| by { WritesStay(done, r, answer); }
      WritesNavigable(ApplyReload(done, r, answer), r.write);
    }
  }

  lemma WritesStay(s: Store, r: Reload, answer: Response)
    ensures ApplyReload(s, r, answer).writes == s.writes
  {
  }

  lemma NavigableStep(s: Store, step: Step)
    requires Good(s) && Navigable(s)
    ensures Navigable(Do(s, step))
  {
    hide Good, Navigable, Restart, WithoutColumn, LoadData, DataArrived, DataFailed, CountArrived, Finish, CancelLoad,
         RefreshPagination,
         RefreshArrived, SetPage, SwitchToTable, Remove, MarkStale, AfterCleared, Evict, BeginWrite, BeginReload,
         ReloadArrived, WriteFailed,
         EndWrite, Reset;
    match step
    case Load(key, columns) => LoadNavigable(s, key, columns);
    case DataAnswer(r, answer) => if r < |s.requests| { ArrivalNavigable(s, r, answer); }
    case DataError(r) => if r < |s.requests| { FinishNavigable(s, r); }
    case CountAnswer(r, total) => if r < |s.requests| { CountNavigable(s, r, total); }
    case CountError(r) => if r < |s.requests| { FinishNavigable(s, r); }
    case Cancel => OtherStepsNavigable(s, TableKey("", "", ""), s.view);
    case Refresh(key) => LoadNavigable(s, key, None);
    case RefreshAnswer(r, total) => if r < |s.requests| { RefreshNavigable(s, r, total); }
    case RefreshError(r) => if r < |s.requests| { FinishNavigable(s, r); }
    case ChangePage(page, direction) => SetPageNavigable(s, page, direction);
    case ChangePageSize(size) => OtherStepsNavigable(s, TableKey("", "", ""), s.view.(pageSize := size));
    case ChangeSort(sort) => OtherStepsNavigable(s, TableKey("", "", ""), s.view.(sort := sort));
    case DropSort(column) =>
      OtherStepsNavigable(s, TableKey("", "", ""), s.view.(sort := WithoutColumn(s.view.sort, column)));
    case ChangeFilter(filter) => OtherStepsNavigable(s, TableKey("", "", ""), s.view.(filter := filter));
    case Switch(key) => SwitchNavigable(s, key, 0);
    case CloseTable(key) => RemoveNavigable(s, k => k == key);
    case CloseConnection(conn) => RemoveNavigable(s, (k: TableKey) => k.conn == conn);
    case Stale(key) => StaleNavigable(s, key);
    case Emptied(key) => StaleNavigable(s, key);
    case Evicted(key, id) => SwitchNavigable(s, key, id);
    case WriteBegins(key) => OtherStepsNavigable(s, key, s.view);
    case WriteDone(w) => if w < |s.writes| { WritesNavigable(s, w); }
    case ReloadAnswer(i, answer) =>
      if i < |s.reloads| && s.reloads[i].write < |s.writes| { ReloadNavigable(s, i, answer); }
    case WriteError(w) => if w < |s.writes| { WritesNavigable(s, w); }
    case ResetAll => OtherStepsNavigable(s, TableKey("", "", ""), s.view);
  }

  lemma {:induction false} NavigableRun(steps: seq<Step>)
    ensures Good(Run(steps)) && Navigable(Run(steps))
  {
    if steps != [] {
      NavigableRun(steps[..|steps| - 1]);
      GoodStep(Run(steps[..|steps| - 1]), steps[|steps| - 1]);
      NavigableStep(Run(steps[..|steps| - 1]), steps[|steps| - 1]);
    }
  }

  // ---- what is not held is never sent again ----

  /** A step that holds, and sends, only what was held. */
  ghost predicate HoldsLess(s: Store, s': Store, c: nat) {
    && |s.requests| <= |s'.requests| && |s.responses| <= |s'.responses|
    && (forall i | 0 <= i < |s.requests|
          && s'.requests[i].navigation.Some? :: s'.requests[i].navigation == s.requests[i].navigation)
    && (Held(s', c) ==> Held(s, c)) && (SentFrom(s', |s.requests|, c) ==> Held(s, c))
  }

  lemma HoldsNoMore(s: Store, s': Store, c: nat)
    requires s.responses <= s'.responses && SameLoads(s.requests, s'.requests) && s'.navigation in {None, s.navigation}
    requires HeldBy(s'.view, c) ==> Held(s, c)
    requires forall k | k in s'.cache :: HeldBy(s'.cache[k], c) ==> Held(s, c)
    ensures HoldsLess(s, s', c)
  {
  }

  lemma LoadHolds(s: Store, key: TableKey, columns: Option<seq<string>>, c: nat)
    ensures HoldsLess(s, LoadData(s, key, columns), c)
  {
    hide CanCancel, QueryOf;
    var s' := LoadData(s, key, columns);
    assert forall k | k in s'.cache :: HeldBy(s'.cache[k], c) ==> HeldBy(s.cache[k], c);
    assert HeldBy(s'.view, c) ==> HeldBy(s.view, c);
    if i :| |s.requests| <= i < |s'.requests| && s'.requests[i].navigation.Some?
            && s'.requests[i].navigation.value.cursor == c {
      assert s'.requests[i].navigation == s.navigation;
    }
  }

  lemma SetPageHolds(s: Store, page: int, direction: Option<Direction>, c: nat)
    requires Good(s)
    ensures HoldsLess(s, SetPage(s, page, direction), c)
  {
    assert Provenance(s.responses, s.view);
    var s' := SetPage(s, page, direction);
    assert forall k | k in s'.cache :: HeldBy(s'.cache[k], c) ==> HeldBy(s.cache[k], c);
    assert HeldBy(s'.view, c) ==> HeldBy(s.view, c);
  }

  lemma ArrivalHolds(s: Store, r: nat, answer: Response, c: nat)
    requires r < |s.requests| && c < |s.responses|
    ensures HoldsLess(s, DataArrived(s, r, answer), c)
  {
    hide CanCancel, Latest;
    var s' := DataArrived(s, r, answer);
    forall k | k in s'.cache && HeldBy(s'.cache[k], c) ensures Held(s, c) {
      assert k in s.cache && HeldBy(s.cache[k], c);
    }
    HoldsNoMore(s, s', c);
  }

  lemma FinishHolds(s: Store, r: nat, c: nat)
    requires r < |s.requests|
    ensures HoldsLess(s, Finish(s, r), c) && HoldsLess(s, DataFailed(s, r), c)
    ensures Held(Finish(s, r), c) == Held(s, c)
  {
    hide CanCancel, Latest, HeldBy;
    HoldsNoMore(s, Finish(s, r), c);
    HoldsNoMore(s, DataFailed(s, r), c);
  }

  lemma CountedHolds(cache: map<TableKey, Data>, key: TableKey, filter: string, total: int, c: nat)
    ensures var r := Counted(cache, key, filter, total);
            r.Keys == cache.Keys && forall k | k in r :: HeldBy(r[k], c) ==> HeldBy(cache[k], c)
  {
  }

  lemma CountHolds(s: Store, r: nat, total: int, c: nat)
    requires r < |s.requests|
    ensures HoldsLess(s, CountArrived(s, r, total), c)
  {
    hide CanCancel, Latest, Counted;
    CountedHolds(s.cache, s.requests[r].key, s.requests[r].query.filter, total, c);
    HoldsNoMore(s, CountArrived(s, r, total), c);
  }

  lemma HoldsThen(s: Store, told: Store, s': Store, c: nat)
    requires HoldsLess(s, told, c) && HoldsLess(told, s', c) && |told.requests| == |s.requests|
    ensures HoldsLess(s, s', c)
  {
    hide Held;
  }

  lemma RefreshHolds(s: Store, r: nat, total: int, c: nat)
    requires r < |s.requests|
    ensures HoldsLess(s, RefreshArrived(s, r, total), c)
  {
    hide CanCancel, Counted, ClampedPage;
    var request := s.requests[r];
    var told := Totalled(s, request, total);
    CountedHolds(s.cache, request.key, request.query.filter, total, c);
    HoldsNoMore(s, told, c);
    assert |told.requests| == |s.requests|;
    hide Totalled, HoldsLess, Finish;
    FinishHolds(s, r, c);
    FinishHolds(told, r, c);
    HoldsThen(s, told, Finish(told, r), c);
  }

  lemma SwitchHolds(s: Store, key: TableKey, c: nat)
    ensures HoldsLess(s, SwitchToTable(s, key), c)
  {
    hide CanCancel, HasRows, Writing, IsCurrent, CurrentQuery;
    HoldsNoMore(s, SwitchToTable(s, key), c);
  }

  lemma CancelHolds(s: Store, c: nat)
    ensures HoldsLess(s, CancelLoad(s), c)
  {
    hide CanCancel, IsCurrent;
    HoldsNoMore(s, CancelLoad(s), c);
  }

  lemma RemoveHolds(s: Store, gone: TableKey -> bool, c: nat)
    ensures HoldsLess(s, Remove(s, gone), c)
  {
    hide StopWrites, WithoutCounts;
    HoldsNoMore(s, Remove(s, gone), c);
  }

  lemma StaleHolds(s: Store, key: TableKey, c: nat)
    ensures HoldsLess(s, MarkStale(s, key), c)
  {
    hide WithoutCounts;
    HoldsNoMore(s, MarkStale(s, key), c);
  }

  lemma ClearedHolds(s: Store, key: TableKey, c: nat)
    ensures HoldsLess(s, AfterCleared(s, key), c)
  {
    hide LoadData, WithoutCounts;
    var left := s.(cache := map k | k in s.cache && k != key :: s.cache[k], counts := WithoutCounts(s, k => k == key));
    var cleared := left.(counter := s.counter + 1, view := Cleared(s.view), navigation := None);
    HoldsNoMore(s, left, c);
    HoldsNoMore(s, cleared, c);
    LoadHolds(cleared, key, s.view.lastColumns, c);
  }

  lemma EvictHolds(s: Store, key: TableKey, id: nat, c: nat)
    ensures HoldsLess(s, Evict(s, key, id), c)
  {
    HoldsNoMore(s, Evict(s, key, id), c);
  }

  lemma WritesHold(s: Store, w: nat, key: TableKey, c: nat)
    ensures HoldsLess(s, BeginWrite(s, key), c)
    ensures w < |s.writes| ==>
              HoldsLess(s, EndWrite(s, w), c) && HoldsLess(s, WriteFailed(s, w), c)
              && HoldsLess(s, BeginReload(s, w), c)
  {
    hide CanCancel, HeldBy;
    HoldsNoMore(s, BeginWrite(s, key), c);
    if w < |s.writes| {
      HoldsNoMore(s, EndWrite(s, w), c);
      HoldsNoMore(s, WriteFailed(s, w), c);
      HoldsNoMore(s, BeginReload(s, w), c);
    }
  }

  lemma ReloadHolds(s: Store, i: nat, answer: Response, c: nat)
    requires i < |s.reloads| && s.reloads[i].write < |s.writes| && c < |s.responses|
    ensures HoldsLess(s, ReloadArrived(s, i, answer), c)
  {
    hide CanCancel, Applies, HoldsLess, EndWrite, Finish;
    var r := s.reloads[i];
    var done := s.(reloads := s.reloads[i := r.(done := true)]);
    var applied := ApplyReload(done, r, answer);
    HoldsNoMore(s, done, c);
    ReloadedHolds(done, r, answer, c);
    assert |done.requests| == |s.requests| && |applied.requests| == |s.requests| && applied.writes == s.writes;
    hide ApplyReload, Held;
    WritesHold(done, r.write, r.key, c);
    WritesHold(applied, r.write, r.key, c);
    HoldsThen(s, done, applied, c);
    HoldsThen(s, done, EndWrite(done, r.write), c);
    HoldsThen(s, applied, EndWrite(applied, r.write), c);
  }

  lemma ReloadedHolds(s: Store, r: Reload, answer: Response, c: nat)
    requires c < |s.responses|
    ensures HoldsLess(s, ApplyReload(s, r, answer), c)
  {
    var s' := ApplyReload(s, r, answer);
    forall k | k in s'.cache && HeldBy(s'.cache[k], c) ensures Held(s, c) {
      assert k in s.cache && HeldBy(s.cache[k], c);
    }
    HoldsNoMore(s, s', c);
  }

  lemma RestartHolds(s: Store, view: Data, c: nat)
    ensures HoldsLess(s, Restart(s, view), c) && HoldsLess(s, Reset(s), c) && HoldsLess(s, s, c)
  {
    hide StopWrites;
    HoldsNoMore(s, Restart(s, view), c);
    HoldsNoMore(s, Reset(s), c);
    HoldsNoMore(s, s, c);
  }

  lemma PaginationHolds(s: Store, key: TableKey, c: nat)
    ensures HoldsLess(s, RefreshPagination(s, key), c)
  {
    hide CanCancel, QueryOf, HeldBy;
    HoldsNoMore(s, RefreshPagination(s, key), c);
  }

  lemma StepHolds(s: Store, step: Step, c: nat)
    requires Good(s) && c < |s.responses|
    ensures HoldsLess(s, Do(s, step), c)
  {
    hide Good, Restart, WithoutColumn, LoadData, DataArrived, DataFailed, CountArrived, Finish, CancelLoad,
         RefreshPagination, HoldsLess,
         RefreshArrived, SetPage, SwitchToTable, Remove, MarkStale, AfterCleared, Evict, BeginWrite, BeginReload,
         ReloadArrived, WriteFailed,
         EndWrite, Reset;
    RestartHolds(s, s.view, c);
    match step
    case Load(key, columns) => LoadHolds(s, key, columns, c);
    case DataAnswer(r, answer) => if r < |s.requests| { ArrivalHolds(s, r, answer, c); }
    case DataError(r) => if r < |s.requests| { FinishHolds(s, r, c); }
    case CountAnswer(r, total) => if r < |s.requests| { CountHolds(s, r, total, c); }
    case CountError(r) => if r < |s.requests| { FinishHolds(s, r, c); }
    case Cancel => CancelHolds(s, c);
    case Refresh(key) => PaginationHolds(s, key, c);
    case RefreshAnswer(r, total) => if r < |s.requests| { RefreshHolds(s, r, total, c); }
    case RefreshError(r) => if r < |s.requests| { FinishHolds(s, r, c); }
    case ChangePage(page, direction) => SetPageHolds(s, page, direction, c);
    case ChangePageSize(size) => RestartHolds(s, s.view.(pageSize := size), c);
    case ChangeSort(sort) => RestartHolds(s, s.view.(sort := sort), c);
    case DropSort(column) => RestartHolds(s, s.view.(sort := WithoutColumn(s.view.sort, column)), c);
    case ChangeFilter(filter) => RestartHolds(s, s.view.(filter := filter), c);
    case Switch(key) => SwitchHolds(s, key, c);
    case CloseTable(key) => RemoveHolds(s, k => k == key, c);
    case CloseConnection(conn) => RemoveHolds(s, (k: TableKey) => k.conn == conn, c);
    case Stale(key) => StaleHolds(s, key, c);
    case Emptied(key) => ClearedHolds(s, key, c);
    case Evicted(key, id) => EvictHolds(s, key, id, c);
    case WriteBegins(key) => WritesHold(s, 0, key, c);
    case WriteDone(w) => WritesHold(s, w, TableKey("", "", ""), c);
    case ReloadAnswer(i, answer) =>
      if i < |s.reloads| && s.reloads[i].write < |s.writes| { ReloadHolds(s, i, answer, c); }
    case WriteError(w) => WritesHold(s, w, TableKey("", "", ""), c);
    case ResetAll =>
  }

  lemma RunOne(steps: seq<Step>, step: Step)
    ensures Run(steps + [step]) == Do(Run(steps), step)
  {
    assert (steps + [step])[..|steps|] == steps;
  }

  /** Once an answer is not held, none of its cursors is sent again, whatever happens. */
  lemma {:induction false} NeverAgain(steps: seq<Step>, more: seq<Step>, c: nat)
    requires c < |Run(steps).responses| && !Held(Run(steps), c)
    ensures |Run(steps).requests| <= |Run(steps + more).requests| && c < |Run(steps + more).responses|
    ensures !Held(Run(steps + more), c) && !SentFrom(Run(steps + more), |Run(steps).requests|, c)
  {
    if more == [] {
      assert steps + more == steps;
    } else {
      var before, last := steps + more[..|more| - 1], more[|more| - 1];
      assert steps + more == before + [last];
      hide Run, Held, SentFrom, Do, HoldsLess, AllProvenance, Cursors, Requests;
      NeverAgain(steps, more[..|more| - 1], c);
      OneMore(before, last, |Run(steps).requests|, c);
    }
  }

  lemma OneMore(steps: seq<Step>, step: Step, n: nat, c: nat)
    requires c < |Run(steps).responses| && !Held(Run(steps), c) && !SentFrom(Run(steps), n, c)
             && n <= |Run(steps).requests|
    ensures n <= |Run(steps + [step]).requests| && c < |Run(steps + [step]).responses|
    ensures !Held(Run(steps + [step]), c) && !SentFrom(Run(steps + [step]), n, c)
  {
    hide Run, Held, SentFrom, Do, HoldsLess, AllProvenance, Cursors, Requests;
    Reachable(steps);
    RunOne(steps, step);
    StepHolds(Run(steps), step, c);
    StillUnsent(Run(steps), Do(Run(steps), step), n, c);
  }

  lemma StillUnsent(s: Store, s': Store, n: nat, c: nat)
    requires HoldsLess(s, s', c) && !Held(s, c) && !SentFrom(s, n, c) && n <= |s.requests|
    ensures !Held(s', c) && !SentFrom(s', n, c) && |s.requests| <= |s'.requests| && |s.responses| <= |s'.responses|
  {
    hide Held;
  }

  // ---- what is held can be sent again ----

  /** The direction an answer lets the reader go on in. */
  function Onward(r: Response): Direction {
    if r.next then Next else Previous
  }

  function Beyond(r: Response): int {
    if r.next then r.page + 1 else r.page - 1
  }

  /** A failed load of the page's own table settles the state; then to the page, on from it, and a load. */
  function GoOn(s: Store, q: Query, r: Response): seq<Step>
    requires q.key.Some?
  {
    [Load(q.key.value, q.columns), DataError(|s.requests|), ChangePage(r.page, None),
     ChangePage(Beyond(r), Some(Onward(r))), Load(q.key.value, q.columns)]
  }

  /** A load that fails leaves what is shown, for its table, with nothing loading. */
  lemma FailedLoad(s: Store, key: TableKey, columns: Option<seq<string>>, s1: Store, s2: Store)
    requires s1 == LoadData(s, key, columns) && |s1.requests| > |s.requests| && s2 == DataFailed(s1, |s.requests|)
    ensures Unanswered(s1, |s.requests|, DataRequest)
    ensures s2.active == Some(key) && !s2.loading && s2.view.lastColumns == columns && s2.responses == s.responses
            && s2.navigation == None
    ensures s2.view.context == s.view.context && s2.view.pagination == s.view.pagination && s2.view.page == s.view.page
    ensures s2.view.pageSize == s.view.pageSize && s2.view.sort == s.view.sort && s2.view.filter == s.view.filter
    ensures |s2.requests| >= |s.requests|
  {
    hide CanCancel, QueryOf;
  }

  lemma SettledTurns(s2: Store, s3: Store, s4: Store, c: nat)
    requires Good(s2) && HeldBy(s2.view, c) && c < |s2.responses| && (s2.responses[c].next || s2.responses[c].previous)
    requires var q := s2.view.context.value.query; s2.active == q.key && !s2.loading && s2.view.lastColumns == q.columns
    requires s3 == SetPage(s2, s2.responses[c].page, None)
    requires s4 == SetPage(s3, Beyond(s2.responses[c]), Some(Onward(s2.responses[c])))
    ensures s4.requests == s2.requests && s4.navigation.Some? && s4.navigation.value.cursor == c
    ensures s4.navigation.value.page == s4.view.page
            && s4.navigation.value.query == QueryOf(s2.active, s4.view, s2.view.lastColumns)
  {
    assert Provenance(s2.responses, s2.view);
    hide Good, Provenance;
    TurnedBack(s2, s3, s2.responses[c].page);
    hide HeldBy, CurrentQuery;
  }

  /** Turning to the page that is shown leaves rows and context, so that its cursors may go on from there. */
  lemma TurnedBack(s: Store, s': Store, page: int)
    requires s' == SetPage(s, page, None)
    ensures s' == s.(counter := s'.counter, view := s.view.(page := page), navigations := s'.navigations,
                     navigation := s'.navigation)
    ensures CurrentQuery(s') == CurrentQuery(s)
  {
  }

  /** From a settled page its cursor goes with the next change of page, and with the load after it. */
  lemma SettledSends(s2: Store, s3: Store, s4: Store, s5: Store, c: nat)
    requires Good(s2) && HeldBy(s2.view, c) && c < |s2.responses| && (s2.responses[c].next || s2.responses[c].previous)
    requires var q := s2.view.context.value.query; s2.active == q.key && !s2.loading && s2.view.lastColumns == q.columns
    requires s3 == SetPage(s2, s2.responses[c].page, None)
    requires s4 == SetPage(s3, Beyond(s2.responses[c]), Some(Onward(s2.responses[c])))
    requires s2.active.Some? && s5 == LoadData(s4, s2.active.value, s2.view.lastColumns)
    ensures SentFrom(s5, |s2.requests|, c)
  {
    SettledTurns(s2, s3, s4, c);
    hide CanCancel, SetPage, Good, HeldBy, QueryOf;
    assert s5.requests[|s4.requests|].navigation == s4.navigation;
  }

  lemma RunTwo(steps: seq<Step>, a: Step, b: Step)
    ensures Run(steps + [a, b]) == Do(Do(Run(steps), a), b)
  {
    hide Run, Do;
    RunOne(steps, a);
    RunOne(steps + [a], b);
    assert steps + [a] + [b] == steps + [a, b];
  }

  lemma RunFiveMore(steps: seq<Step>, more: seq<Step>)
    requires |more| == 5
    ensures Run(steps + more) == Do(Do(Do(Do(Do(Run(steps), more[0]), more[1]), more[2]), more[3]), more[4])
  {
    hide Run, Do;
    RunTwo(steps, more[0], more[1]);
    RunTwo(steps + [more[0], more[1]], more[2], more[3]);
    RunOne(steps + [more[0], more[1]] + [more[2], more[3]], more[4]);
    assert steps + [more[0], more[1]] + [more[2], more[3]] + [more[4]] == steps + more;
  }

  /** The states after a failed load. */
  lemma AfterFailure(steps: seq<Step>, s: Store, key: TableKey, columns: Option<seq<string>>, s2: Store)
    requires s == Run(steps) && s2 == Do(Do(s, Load(key, columns)), DataError(|s.requests|))
    ensures Good(s2) && Keyed(s2)
    ensures s2.active == Some(key) && !s2.loading && s2.view.lastColumns == columns && s2.responses == s.responses
    ensures s2.view.context == s.view.context && |s2.requests| >= |s.requests|
    ensures s2.view.pageSize == s.view.pageSize && s2.view.sort == s.view.sort && s2.view.filter == s.view.filter
  {
    var s1 := LoadData(s, key, columns);
    assert |s1.requests| > |s.requests|;
    FailedLoad(s, key, columns, s1, DataFailed(s1, |s.requests|));
    hide LoadData, DataFailed, Run;
    RunTwo(steps, Load(key, columns), DataError(|s.requests|));
    NavigableRun(steps + [Load(key, columns), DataError(|s.requests|)]);
  }

  lemma GoneOn(steps: seq<Step>, s: Store, q: Query, r: Response, s2: Store)
    requires s == Run(steps) && q.key.Some? && s2 == Do(Do(s, Load(q.key.value, q.columns)), DataError(|s.requests|))
    ensures Run(steps + GoOn(s, q, r)) ==
              LoadData(SetPage(SetPage(s2, r.page, None), Beyond(r), Some(Onward(r))), q.key.value, q.columns)
  {
    hide Run, LoadData, DataFailed, SetPage, Beyond, Onward;
    RunFiveMore(steps, GoOn(s, q, r));
  }

  /** What is shown can be sent from. */
  lemma ShownSends(steps: seq<Step>, s: Store, c: nat) returns (more: seq<Step>)
    requires s == Run(steps) && HeldBy(s.view, c) && c < |s.responses|
             && (s.responses[c].next || s.responses[c].previous)
    ensures SentFrom(Run(steps + more), |s.requests|, c)
  {
    NavigableRun(steps);
    var q, r := s.view.context.value.query, s.responses[c];
    assert q.key.Some? && s.responses[c].query == q by { assert Provenance(s.responses, s.view) && Keyed(s); }
    hide Run, Do, Navigable, Good, LoadData, SetPage, SentFrom, Keyed, GoOn, Beyond, Onward;
    more := GoOn(s, q, r);
    var s2 := Do(Do(s, Load(q.key.value, q.columns)), DataError(|s.requests|));
    AfterFailure(steps, s, q.key.value, q.columns, s2);
    GoneOn(steps, s, q, r, s2);
    SettledSends(s2, SetPage(s2, r.page, None), SetPage(SetPage(s2, r.page, None), Beyond(r), Some(Onward(r))),
                 Run(steps + more), c);
    SentLater(Run(steps + more), |s.requests|, |s2.requests|, c);
  }

  function OtherTable(k: TableKey): (r: TableKey)
    ensures r != k
  {
    assert |k.table + "'"| > |k.table|;
    k.(table := k.table + "'")
  }

  /** Another table, loaded and left, brings back what is kept. */
  lemma KeptBack(steps: seq<Step>, s: Store, k: TableKey, s': Store)
    requires s == Run(steps) && k in s.cache && s' == Run(steps + [Load(OtherTable(k), None), Switch(k)])
    ensures s'.view == s.cache[k] && s'.responses == s.responses && |s'.requests| >= |s.requests|
  {
    RunTwo(steps, Load(OtherTable(k), None), Switch(k));
    hide Run, LoadData, SwitchToTable, OtherTable;
    KeptShown(s, k, OtherTable(k), s');
  }

  lemma KeptSends(steps: seq<Step>, s: Store, k: TableKey, c: nat) returns (more: seq<Step>)
    requires s == Run(steps) && k in s.cache && HeldBy(s.cache[k], c)
    requires c < |s.responses| && (s.responses[c].next || s.responses[c].previous)
    ensures SentFrom(Run(steps + more), |s.requests|, c)
  {
    hide HeldBy, Run, SentFrom, OtherTable;
    var back := [Load(OtherTable(k), None), Switch(k)];
    var s' := Run(steps + back);
    KeptBack(steps, s, k, s');
    var rest := ShownSends(steps + back, s', c);
    more := back + rest;
    assert steps + more == steps + back + rest;
    SentLater(Run(steps + more), |s.requests|, |s'.requests|, c);
  }

  lemma SentLater(s: Store, n: nat, m: nat, c: nat)
    requires SentFrom(s, m, c) && n <= m
    ensures SentFrom(s, n, c)
  {
  }

  lemma KeptShown(s: Store, k: TableKey, other: TableKey, s': Store)
    requires k in s.cache && other != k && s' == SwitchToTable(LoadData(s, other, None), k)
    ensures s'.view == s.cache[k] && s'.responses == s.responses && |s'.requests| >= |s.requests|
  {
    hide CanCancel, HasRows, Writing, IsCurrent, QueryOf, CurrentQuery;
  }

  /** A cursor on its way goes with a load of its table. */
  lemma WaitingSends(steps: seq<Step>, s: Store) returns (more: seq<Step>)
    requires s == Run(steps) && s.navigation.Some?
    ensures SentFrom(Run(steps + more), |s.requests|, s.navigation.value.cursor)
  {
    NavigableRun(steps);
    var n := s.navigation.value;
    more := [Load(n.query.key.value, n.query.columns)];
    RunOne(steps, more[0]);
    hide Run, CanCancel;
    assert Run(steps + more).requests[|s.requests|].navigation == s.navigation;
  }

  /**
   In every reachable state: an answer that came with a cursor has one sent from now on, in some
   continuation, exactly if it is held; so the same cursor goes out again and again while its page is.
   */
  lemma CursorSentIff(steps: seq<Step>, s: Store, c: nat)
    requires s == Run(steps) && c < |s.responses| && (s.responses[c].next || s.responses[c].previous)
    ensures (exists more: seq<Step> :: SentFrom(Run(steps + more), |s.requests|, c)) <==> Held(s, c)
  {
    if Held(s, c) {
      var more;
      if HeldBy(s.view, c) { more := ShownSends(steps, s, c); }
      else if k :| k in s.cache && HeldBy(s.cache[k], c) { more := KeptSends(steps, s, k, c); }
      else { more := WaitingSends(steps, s); }
      assert SentFrom(Run(steps + more), |s.requests|, c);
    } else {
      forall more: seq<Step> ensures !SentFrom(Run(steps + more), |s.requests|, c) { NeverAgain(steps, more, c); }
    }
  }

  // ---- an answer spends its cursor ----

  /**
   While loads are for the table that is shown, the answer that a cursor brought leaves its page nowhere to go on from.
   */
  lemma AnswerSpends(steps: seq<Step>, s: Store, r: nat, answer: Response)
    requires DisciplinedRun(steps) && s == Run(steps) && Unanswered(s, r, DataRequest) && s.requests[r].navigation.Some?
    requires Latest(Finish(s, r), r)
    ensures !Held(DataArrived(s, r, answer), s.requests[r].navigation.value.cursor)
  {
    SoundRun(steps);
    NavigableRun(steps);
    hide Run, CanCancel, DisciplinedRun, Whole, CurrentQuery;
    var s', c, key := DataArrived(s, r, answer), s.requests[r].navigation.value.cursor, s.requests[r].key;
    assert Wellformed(s, r) && Adjacent(s.responses, s.requests[r].navigation.value);
    assert s.responses[c].query.key == Some(key);
    forall k | k in s'.cache ensures !HeldBy(s'.cache[k], c) {
      if k != key { assert Holds(s.responses, s.cache[k], Some(k)) && Provenance(s.responses, s.cache[k]); }
    }
  }

  /** So a cursor is sent again only where nothing it brought was ever shown. */
  lemma AnsweredOnce(steps: seq<Step>, s: Store, r: nat, answer: Response, more: seq<Step>)
    requires DisciplinedRun(steps) && s == Run(steps) && Unanswered(s, r, DataRequest) && s.requests[r].navigation.Some?
    requires Latest(Finish(s, r), r)
    ensures !SentFrom(Run(steps + [DataAnswer(r, answer)] + more), |s.requests|, s.requests[r].navigation.value.cursor)
  {
    var c := s.requests[r].navigation.value.cursor;
    AnswerSpends(steps, s, r, answer);
    Reachable(steps);
    assert Adjacent(s.responses, s.requests[r].navigation.value);
    RunOne(steps, DataAnswer(r, answer));
    ArrivalHolds(s, r, answer, c);
    hide Run, DataArrived, Held, AllProvenance, Cursors, Requests;
    var s' := Run(steps + [DataAnswer(r, answer)]);
    assert s' == DataArrived(s, r, answer) && |s'.requests| == |s.requests| by { AnswerAsksNothing(s, r, answer); }
    NeverAgain(steps + [DataAnswer(r, answer)], more, c);
  }

  lemma AnswerAsksNothing(s: Store, r: nat, answer: Response)
    requires r < |s.requests|
    ensures |DataArrived(s, r, answer).requests| == |s.requests|
  {
    hide CanCancel, Latest;
  }

  // ---- and a failed load does not ----

  /** The first page, with a cursor to the next, and the load of the next page. */
  lemma NextPageAsked(a: TableKey, answer: Response, s2: Store, s4: Store)
    requires answer.next && s2 == DataArrived(LoadData(Initial(), a, None), 0, answer)
    requires s4 == LoadData(SetPage(s2, 2, Some(Next)), a, None)
    ensures s4.view.page == 2 && s4.view.context == s2.view.context && s4.view.pagination == Some(0)
            && |s4.responses| == 1 && s4.responses[0].next
    ensures s4.view.context.Some? && s4.view.context.value.page == 1 && s4.view.context.value.query == CurrentQuery(s4)
    ensures |s4.requests| == 4 && s4.requests[2].kind == DataRequest && !s4.requests[2].answered && s4.active == Some(a)
            && s4.counts == map[]
    ensures s4.requests[2].navigation.Some? && s4.requests[2].navigation.value.cursor == 0
    ensures s4.requests[2].loadId == s4.counter && !s4.requests[2].cancelled && s4.requests[2].data == 2
            && s4.view.lastColumns == None
  {
    hide CanCancel;
    var s1 := LoadData(Initial(), a, None);
    assert s1.requests[0].data == 0 && !s1.requests[0].cancelled && s1.counter == 1 == s1.requests[0].loadId
           && |s1.requests| == 2;
    assert s2.view.context == Some(Context(1, CurrentQuery(s2), 0)) && !s2.loading && s2.active == Some(a);
    var s3 := SetPage(s2, 2, Some(Next));
    assert s3.navigation.Some? && s3.navigation.value.cursor == 0 && s3.navigation.value.query == CurrentQuery(s3);
  }

  /** That load fails; back to the first page and on again. */
  lemma AskedAgain(a: TableKey, s4: Store, s8: Store)
    requires s4.view.page == 2 && s4.view.pagination == Some(0) && |s4.responses| == 1 && s4.responses[0].next
    requires s4.view.context.Some? && s4.view.context.value.page == 1 && s4.view.context.value.query == CurrentQuery(s4)
    requires |s4.requests| == 4 && s4.active == Some(a) && s4.counts == map[] && s4.view.lastColumns == None
    requires s4.requests[2].loadId == s4.counter && !s4.requests[2].cancelled && s4.requests[2].data == 2
    requires s8 == LoadData(SetPage(SetPage(DataFailed(s4, 2), 1, None), 2, Some(Next)), a, None)
    ensures |s8.requests| > 4 && s8.requests[4].navigation.Some? && s8.requests[4].navigation.value.cursor == 0
    ensures s8.requests[2].navigation == s4.requests[2].navigation
  {
    hide CanCancel;
    var s5 := DataFailed(s4, 2);
    assert !s5.loading && CurrentQuery(s5) == CurrentQuery(s4);
    var s6 := SetPage(s5, 1, None);
    assert CurrentQuery(s6) == CurrentQuery(s4) && s6.view.page == 1 && s6.navigation == None;
    var s7 := SetPage(s6, 2, Some(Next));
    assert s7.navigation.Some? && s7.navigation.value.cursor == 0 && s7.navigation.value.query == CurrentQuery(s7);
  }

  /** A load that fails leaves its cursor to be sent a second time. */
  lemma CursorSentTwice(a: TableKey, answer: Response)
    requires answer.next
    ensures var s := Run([Load(a, None), DataAnswer(0, answer), ChangePage(2, Some(Next)), Load(a, None), DataError(2),
                          ChangePage(1, None), ChangePage(2, Some(Next)), Load(a, None)]);
            && |s.requests| > 4 && s.requests[2].navigation.Some? && s.requests[4].navigation.Some?
            && s.requests[2].navigation.value.cursor == s.requests[4].navigation.value.cursor
  {
    var s2 := DataArrived(LoadData(Initial(), a, None), 0, answer);
    var s4 := LoadData(SetPage(s2, 2, Some(Next)), a, None);
    NextPageAsked(a, answer, s2, s4);
    EightSteps(a, answer, s4);
    hide LoadData, DataArrived, SetPage, DataFailed, CurrentQuery, Run;
    AskedAgain(a, s4, LoadData(SetPage(SetPage(DataFailed(s4, 2), 1, None), 2, Some(Next)), a, None));
  }

  lemma EightSteps(a: TableKey, answer: Response, s4: Store)
    requires answer.next && |s4.requests| == 4 && s4.requests[2].kind == DataRequest && !s4.requests[2].answered
    requires s4 == LoadData(SetPage(DataArrived(LoadData(Initial(), a, None), 0, answer), 2, Some(Next)), a, None)
    ensures Run([Load(a, None), DataAnswer(0, answer), ChangePage(2, Some(Next)), Load(a, None), DataError(2),
                 ChangePage(1, None), ChangePage(2, Some(Next)), Load(a, None)]) ==
              LoadData(SetPage(SetPage(DataFailed(s4, 2), 1, None), 2, Some(Next)), a, None)
  {
    hide Run, LoadData, DataArrived, SetPage, DataFailed;
    var first, again := [Load(a, None), DataAnswer(0, answer), ChangePage(2, Some(Next)), Load(a, None)],
                        [DataError(2), ChangePage(1, None), ChangePage(2, Some(Next)), Load(a, None)];
    FirstFour(a, answer);
    SecondFour(first, a, s4);
    assert first + again
           == [Load(a, None), DataAnswer(0, answer), ChangePage(2, Some(Next)), Load(a, None), DataError(2),
                             ChangePage(1, None), ChangePage(2, Some(Next)), Load(a, None)];
  }

  lemma SecondFour(steps: seq<Step>, a: TableKey, s4: Store)
    requires s4 == Run(steps) && |s4.requests| == 4 && s4.requests[2].kind == DataRequest && !s4.requests[2].answered
    ensures Run(steps + [DataError(2), ChangePage(1, None), ChangePage(2, Some(Next)), Load(a, None)]) ==
              LoadData(SetPage(SetPage(DataFailed(s4, 2), 1, None), 2, Some(Next)), a, None)
  {
    hide LoadData, SetPage, DataFailed, Run;
    RunFour(steps, [DataError(2), ChangePage(1, None), ChangePage(2, Some(Next)), Load(a, None)]);
  }

  lemma FirstFour(a: TableKey, answer: Response)
    requires answer.next
    ensures Run([Load(a, None), DataAnswer(0, answer), ChangePage(2, Some(Next)), Load(a, None)]) ==
              LoadData(SetPage(DataArrived(LoadData(Initial(), a, None), 0, answer), 2, Some(Next)), a, None)
  {
    var first := [Load(a, None), DataAnswer(0, answer), ChangePage(2, Some(Next)), Load(a, None)];
    FirstRequest(a, LoadData(Initial(), a, None));
    assert Run([]) == Initial() && [] + first == first;
    hide LoadData, DataArrived, SetPage, Run;
    hide DataFailed, CountArrived, Finish, CancelLoad, RefreshPagination, RefreshArrived, SwitchToTable, Remove,
         MarkStale, AfterCleared, Evict, BeginWrite, BeginReload, ReloadArrived, WriteFailed, EndWrite, Reset, Restart;
    RunFour([], first);
  }

  lemma RunFour(steps: seq<Step>, more: seq<Step>)
    requires |more| == 4
    ensures Run(steps + more) == Do(Do(Do(Do(Run(steps), more[0]), more[1]), more[2]), more[3])
  {
    hide Run, Do;
    RunTwo(steps, more[0], more[1]);
    RunTwo(steps + [more[0], more[1]], more[2], more[3]);
    assert steps + [more[0], more[1]] + [more[2], more[3]] == steps + more;
  }
}
