/**
 The store behind a data grid: one visible table, a cache of others, loads in flight that user
 actions supersede, and reloads after writes.  Each function is what one action or one answer
 does to the state between two awaits.
 */
module TableStore {
  datatype Option<+T> = None | Some(value: T)

  datatype TableKey = TableKey(conn: string, database: string, table: string)

  datatype Sort = Sort(column: string, ascending: bool)

  /** Everything but the page that decides what rows a load returns. */
  datatype Query = Query(key: Option<TableKey>, pageSize: int, sort: seq<Sort>, filter: string,
                         columns: Option<seq<string>>)

  datatype Direction = Next | Previous

  /** An answer to a load: what it was asked for, its size, and which cursors came with it. */
  datatype Response = Response(page: int, query: Query, rowCount: nat, columnCount: nat, next: bool, previous: bool)

  /** The page and query that shown rows were loaded for; `id` is the response, as its object identity. */
  datatype Context = Context(page: int, query: Query, id: nat)

  /** A cursor of a response, to be used for one page of one query. */
  datatype Navigation = Navigation(page: int, query: Query, direction: Direction, cursor: nat, id: nat)

  /** What is shown for a table, or kept for it: rows and cursors are named by their response. */
  datatype Data = Data(
    cacheKey: Option<nat>, evicted: bool, rows: Option<nat>, columns: Option<nat>,
    pagination: Option<nat>, context: Option<Context>,
    page: int, pageSize: int, sort: seq<Sort>, filter: string, lastColumns: Option<seq<string>>,
    total: int, totalStale: bool)

  datatype Kind = DataRequest | CountRequest | RefreshRequest

  /**
   `data` is the data request a count belongs to, `active` whether a refresh was for the active
   table, `known` the total a load started with.  An answer may come long after a cancellation.
   */
  datatype Request = Request(
    key: TableKey, kind: Kind, loadId: nat, cancelled: bool, pending: bool, answered: bool, page: int, query: Query,
    navigation: Option<Navigation>, data: nat, active: bool, known: Option<int>)

  datatype Write = Write(key: TableKey, pending: bool, acknowledged: bool)

  /** What a reload compares before it writes to a table that is not active. */
  datatype Source = NotCached | Loaded(context: Option<Context>)

  datatype Reload = Reload(write: nat, key: TableKey, page: int, query: Query, loadId: nat, source: Source, done: bool)

  datatype Store = Store(
    active: Option<TableKey>, view: Data, cache: map<TableKey, Data>, stale: set<TableKey>,
    counts: map<(TableKey, string), int>, navigation: Option<Navigation>, navigations: nat,
    loading: bool, canCancel: bool, counter: nat,
    requests: seq<Request>, writes: seq<Write>, reloads: seq<Reload>,
    responses: seq<Response>, truncated: set<nat>)

  const INITIAL_DATA :=
    Data(None, false, None, None, None, None, 1, 50, [], "", None, 0, false)

  function Initial(): Store {
    Store(None, INITIAL_DATA, map[], {}, map[], None, 0, false, false, 0, [], [], [], [], {})
  }

  function QueryOf(key: Option<TableKey>, d: Data, columns: Option<seq<string>>): Query {
    Query(key, d.pageSize, d.sort, d.filter, columns)
  }

  /** The query the state stands for. */
  function CurrentQuery(s: Store): Query {
    QueryOf(s.active, s.view, s.view.lastColumns)
  }

  function Cleared(d: Data): Data {
    d.(pagination := None, context := None)
  }

  predicate IsCurrent(r: Request, key: Option<TableKey>) {
    r.pending && !r.cancelled && key == Some(r.key)
  }

  predicate CanCancel(s: Store, key: Option<TableKey>) {
    && (exists i :: 0 <= i < |s.requests| && IsCurrent(s.requests[i], key))
    && !Writing(s, key)
  }

  predicate Writing(s: Store, key: Option<TableKey>) {
    exists i :: 0 <= i < |s.writes| && s.writes[i].pending && key == Some(s.writes[i].key)
  }

  function Recheck(s: Store): Store {
    s.(canCancel := CanCancel(s, s.active))
  }

  // ---- loads ----

  function LoadData(s: Store, key: TableKey, columns: Option<seq<string>>): Store {
    var query := QueryOf(Some(key), s.view, columns);
    var ticket := s.counter + 1;
    var navigation := if s.navigation.Some? && s.navigation.value.page == s.view.page
        && s.navigation.value.query == query
                      then s.navigation else None;
    var k := (key, s.view.filter);
    var known := if k in s.counts then Some(s.counts[k]) else None;
    var data := Request(key, DataRequest, ticket, false, true, false, s.view.page, query, navigation, |s.requests|,
                        true, known);
    var count := data.(kind := CountRequest, navigation := None);
    var requests := s.requests + if k in s.counts then [data] else [data, count];
    var asked := s.(counter := ticket, requests := requests);
    asked.(loading := true, canCancel := CanCancel(asked, Some(key)), active := Some(key), navigation := None,
           view := s.view.(lastColumns := columns, total := if k in s.counts then s.counts[k] else s.view.total))
  }

  function Finish(s: Store, r: nat): Store
    requires r < |s.requests|
  {
    Recheck(s.(requests := s.requests[r := s.requests[r].(pending := false, answered := true)]))
  }

  /** Is the load a request belongs to still the latest one? */
  predicate Latest(s: Store, r: nat)
    requires r < |s.requests|
  {
    var data := s.requests[r].data;
    s.counter == s.requests[r].loadId && data < |s.requests| && !s.requests[data].cancelled
  }

  /** The rows of a response, shown with everything that came with them. */
  function Shown(d: Data, id: nat, page: int, query: Query): Data {
    d.(cacheKey := Some(id), evicted := false, rows := Some(id), columns := Some(id),
       pagination := Some(id), context := Some(Context(page, query, id)))
  }

  function DataArrived(s: Store, r: nat, answer: Response): Store
    requires r < |s.requests|
  {
    var request := s.requests[r];
    var done := Finish(s, r);
    if !Latest(done, r) then done
    else
      var id := |s.responses|;
      var k := (request.key, request.query.filter);
      var shown := Shown(s.view, id, request.page, request.query);
      var kept := shown.(page := request.page, pageSize := request.query.pageSize, sort := request.query.sort,
                         filter := request.query.filter, lastColumns := request.query.columns, totalStale := false,
                         total := if k in s.counts then s.counts[k]
                                  else if request.known.Some? then request.known.value else 0);
      done.(responses := s.responses + [answer.(page := request.page, query := request.query)],
            view := shown, loading := false, cache := s.cache[request.key := kept], stale := s.stale - {request.key})
  }

  function DataFailed(s: Store, r: nat): Store
    requires r < |s.requests|
  {
    var done := Finish(s, r);
    if Latest(done, r) then done.(loading := false) else done
  }

  function Counted(cache: map<TableKey, Data>, key: TableKey, filter: string, total: int): map<TableKey, Data> {
    if key in cache && cache[key].filter == filter then cache[key := cache[key].(total := total, totalStale := false)]
    else cache
  }

  function CountArrived(s: Store, r: nat, total: int): Store
    requires r < |s.requests|
  {
    var request := s.requests[r];
    var done := Finish(s, r);
    if !Latest(done, r) then done
    else done.(view := s.view.(total := total, totalStale := false),
               counts := s.counts[(request.key, request.query.filter) := total],
               cache := Counted(s.cache, request.key, request.query.filter, total))
  }

  /** Stops what is loading for the active table and goes back to the rows last kept for it. */
  function CancelLoad(s: Store): Store {
    if !s.canCancel || !(exists i :: 0 <= i < |s.requests| && IsCurrent(s.requests[i], s.active)) then s
    else
      var cancelledData := exists i :: 0 <= i < |s.requests| && IsCurrent(s.requests[i], s.active)
                             && s.requests[i].kind == DataRequest && s.requests[i].loadId == s.counter;
      var cancelledCount := exists i :: 0 <= i < |s.requests| && IsCurrent(s.requests[i], s.active)
                              && s.requests[i].kind != DataRequest;
      var kept := s.active.Some? && s.active.value in s.cache;
      var restored :=
        if !cancelledData then s.view
        else if kept then s.cache[s.active.value]
        else Cleared(s.view).(rows := None, columns := None);
      s.(requests := seq(|s.requests|, i requires 0 <= i < |s.requests| =>
           if IsCurrent(s.requests[i], s.active) then s.requests[i].(cancelled := true, pending := false)
           else s.requests[i]),
         counter := s.counter + 1, loading := false, canCancel := false, navigation := None,
         view := restored.(totalStale := cancelledCount || s.view.totalStale),
         cache := if cancelledCount && kept
                  then s.cache[s.active.value := s.cache[s.active.value].(total := restored.total, totalStale := true)]
                  else s.cache)
  }

  // ---- the total of a table ----

  function RefreshPagination(s: Store, key: TableKey): Store {
    var query := QueryOf(Some(key), s.view, s.view.lastColumns);
    var request := Request(key, RefreshRequest, s.counter, false, true, false, s.view.page, query, None, |s.requests|,
                           s.active == Some(key), None);
    var asked := s.(requests := s.requests + [request]);
    if request.active then asked.(canCancel := CanCancel(asked, Some(key))) else asked
  }

  /** The last page there is, or none where the size is zero. */
  function ClampedPage(page: int, total: int, pageSize: int): int {
    if pageSize == 0 then page
    else
      var last := if pageSize < 0 || total <= 0 then 1 else (total + pageSize - 1) / pageSize;
      if page > last then last else page
  }

  /** A fresh total; a page past the end becomes the last one, without context. */
  function Totalled(s: Store, request: Request, total: int): Store {
    var filter := request.query.filter;
    var counted := s.(counts := s.counts[(request.key, filter) := total],
                      cache := Counted(s.cache, request.key, filter, total));
    if !request.active || s.active != Some(request.key) || s.view.filter != filter then counted
    else
      var page := ClampedPage(s.view.page, total, s.view.pageSize);
      var view := s.view.(total := total, totalStale := false, page := page);
      if page == s.view.page then counted.(view := view)
      else counted.(view := Cleared(view), navigation := None, counter := s.counter + 1)
  }

  function RefreshArrived(s: Store, r: nat, total: int): Store
    requires r < |s.requests|
  {
    var request := s.requests[r];
    if request.cancelled then Finish(s, r) else Finish(Totalled(s, request, total), r)
  }

  // ---- what the user asks for ----

  /** Another page; a cursor goes with it only from a settled neighbouring page of the same query. */
  function SetPage(s: Store, page: int, direction: Option<Direction>): Store {
    if page == s.view.page then s
    else
      var adjacent := if direction == Some(Next) then page == s.view.page + 1 else page == s.view.page - 1;
      var usable :=
        && direction.Some? && adjacent && !s.loading
        && s.view.context.Some? && s.view.context.value.page == s.view.page
           && s.view.context.value.query == CurrentQuery(s)
        && s.view.pagination.Some? && s.view.pagination.value < |s.responses|
        && var answer := s.responses[s.view.pagination.value];
           if direction.value == Next then answer.next else answer.previous;
      s.(counter := s.counter + 1, view := s.view.(page := page), navigations := s.navigations + 1,
         navigation := if usable
                       then Some(Navigation(page, CurrentQuery(s), direction.value, s.view.pagination.value,
                                            s.navigations))
                       else None)
  }

  /** Another page size, sort order or filter: the first page again, and no context. */
  function Restart(s: Store, view: Data): Store {
    s.(counter := s.counter + 1, view := Cleared(view).(page := 1), navigation := None)
  }

  function SetPageSize(s: Store, size: int): Store { Restart(s, s.view.(pageSize := size)) }

  function SetSort(s: Store, sort: seq<Sort>): Store { Restart(s, s.view.(sort := sort)) }

  function SetFilter(s: Store, filter: string): Store { Restart(s, s.view.(filter := filter)) }

  /** A column leaves the sort order; nothing happens when it was not there. */
  function RemoveSort(s: Store, column: string): Store {
    var sort := WithoutColumn(s.view.sort, column);
    if |sort| == |s.view.sort| then s else SetSort(s, sort)
  }

  function WithoutColumn(sort: seq<Sort>, column: string): seq<Sort> {
    if sort == [] then []
    else (if sort[0].column == column then [] else [sort[0]]) + WithoutColumn(sort[1..], column)
  }

  predicate HasRows(s: Store) {
    || (s.view.rows.Some? && s.view.rows.value < |s.responses| && s.view.rows.value !in s.truncated
        && s.responses[s.view.rows.value].rowCount > 0)
    || (s.view.columns.Some? && s.view.columns.value < |s.responses|
        && s.responses[s.view.columns.value].columnCount > 0)
  }

  /** Another table, as it was left, or as new. */
  function SwitchToTable(s: Store, key: TableKey): Store {
    if s.active == Some(key)
         && ((exists i :: 0 <= i < |s.requests| && IsCurrent(s.requests[i], s.active)) || Writing(s, s.active))
    then Recheck(s)
    else
      var settled := if s.view.context.Some? && s.view.context.value.query == CurrentQuery(s)
                     then s.view.context.value.page else s.view.page;
      var cache := if s.active.Some? && s.active != Some(key) && HasRows(s)
                   then s.cache[s.active.value := s.view.(page := settled)] else s.cache;
      var left := s.(counter := if s.active == Some(key) then s.counter else s.counter + 1, cache := cache,
                     active := Some(key), loading := false, canCancel := false, navigation := None);
      if key in cache then
        var data := cache[key];
        left.(view := data,
              counts := if data.total > 0 && key !in s.stale then s.counts[(key, data.filter) := data.total]
                        else s.counts)
      else left.(view := INITIAL_DATA)
  }

  // ---- tables that change or go away ----

  function CancelFor(s: Store, gone: TableKey -> bool): seq<Request> {
    seq(|s.requests|, i requires 0 <= i < |s.requests| =>
      if s.requests[i].pending && gone(s.requests[i].key) then s.requests[i].(cancelled := true) else s.requests[i])
  }

  function StopWrites(s: Store, gone: TableKey -> bool): seq<Write> {
    seq(|s.writes|, i requires 0 <= i < |s.writes| =>
      if gone(s.writes[i].key) then s.writes[i].(pending := false) else s.writes[i])
  }

  function WithoutCounts(s: Store, gone: TableKey -> bool): map<(TableKey, string), int> {
    map k | k in s.counts && !gone(k.0) :: s.counts[k]
  }

  function Closed(s: Store): Store {
    s.(active := None, view := INITIAL_DATA, navigation := None, loading := false, canCancel := false,
       counter := s.counter + 1)
  }

  /** Closes tables: their requests, writes, snapshots and counts, and the view if it is one of them. */
  function Remove(s: Store, gone: TableKey -> bool): Store {
    var left := s.(requests := CancelFor(s, gone), writes := StopWrites(s, gone), counts := WithoutCounts(s, gone),
                   cache := map k | k in s.cache && !gone(k) :: s.cache[k]);
    if s.active.Some? && gone(s.active.value) then Closed(left) else left
  }

  function RemoveTable(s: Store, key: TableKey): Store { Remove(s, k => k == key) }

  function RemoveConnection(s: Store, conn: string): Store { Remove(s, (k: TableKey) => k.conn == conn) }

  function MarkStale(s: Store, key: TableKey): Store {
    var left := s.(requests := CancelFor(s, k => k == key), counts := WithoutCounts(s, k => k == key),
                   stale := s.stale + {key},
                   cache := if key in s.cache then s.cache[key := Cleared(s.cache[key]).(totalStale := true)]
                            else s.cache);
    if s.active == Some(key)
    then left.(view := Cleared(s.view).(totalStale := true), navigation := None, loading := false, canCancel := false,
               counter := s.counter + 1)
    else left
  }

  /** A table was emptied: nothing of it is kept, and it is loaded again when shown. */
  function AfterCleared(s: Store, key: TableKey): Store {
    var left := s.(cache := map k | k in s.cache && k != key :: s.cache[k], counts := WithoutCounts(s, k => k == key));
    if s.active == Some(key)
    then LoadData(left.(counter := s.counter + 1, view := Cleared(s.view), navigation := None), key, s.view.lastColumns)
    else left
  }

  /** The budget takes a table's rows back: the array is emptied in place, wherever it is held. */
  function Evict(s: Store, key: TableKey, id: nat): Store {
    if !(key in s.cache && s.cache[key].cacheKey == Some(id) && !s.cache[key].evicted) then s
    else
      var left := s.(cache := s.cache[key := Cleared(s.cache[key]).(rows := None, evicted := true)],
                     truncated := if s.cache[key].rows.Some? then s.truncated + {s.cache[key].rows.value}
                                  else s.truncated);
      if s.view.cacheKey == Some(id)
      then left.(view := Cleared(s.view).(rows := None, evicted := true), navigation := None) else left
  }

  // ---- writes and the reload after them ----

  function BeginWrite(s: Store, key: TableKey): Store {
    s.(writes := s.writes + [Write(key, true, false)], loading := true, canCancel := false)
  }

  function EndWrite(s: Store, w: nat): Store
    requires w < |s.writes|
  {
    Recheck(s.(writes := s.writes[w := s.writes[w].(pending := false)]))
  }

  /** The write is done on the server: its table is loaded again, with the parameters it is shown or kept with. */
  function BeginReload(s: Store, w: nat): Store
    requires w < |s.writes|
  {
    var key := s.writes[w].key;
    var mine := s.active == Some(key) || s.active.None?;
    var d := if s.active != Some(key) && key in s.cache then s.cache[key] else s.view;
    var counter := if mine then s.counter + 1 else s.counter;
    var source := if mine then Loaded(s.view.context)
                  else if key in s.cache then Loaded(s.cache[key].context) else NotCached;
    var reload := Reload(w, key, d.page, QueryOf(Some(key), d, d.lastColumns), counter, source, false);
    s.(writes := s.writes[w := s.writes[w].(acknowledged := true)], reloads := s.reloads + [reload], counter := counter,
       navigation := if mine then None else s.navigation)
  }

  /** A reload whose table is shown must be the latest load; one whose table is kept must find it as it was. */
  predicate Applies(s: Store, r: Reload)
    requires r.write < |s.writes|
  {
    s.writes[r.write].pending &&
    if s.active == Some(r.key) || s.active.None? then s.counter == r.loadId
    else r.key in s.cache && Loaded(s.cache[r.key].context) == r.source
  }

  /** The reloaded rows go into the cache, and into view if their table is shown. */
  function ApplyReload(s: Store, r: Reload, answer: Response): Store {
    var id := |s.responses|;
    var total := if r.key in s.cache then s.cache[r.key].total else if s.active == Some(r.key) then s.view.total else 0;
    var shown := Shown(s.view, id, r.page, r.query).(total := total, totalStale := true);
    var kept := shown.(page := r.page, pageSize := r.query.pageSize, sort := r.query.sort, filter := r.query.filter,
                       lastColumns := r.query.columns);
    var more := s.(responses := s.responses + [answer.(page := r.page, query := r.query)],
                   cache := s.cache[r.key := kept],
                   counts := map k | k in s.counts && k != (r.key, r.query.filter) :: s.counts[k]);
    if s.active.Some? && s.active != Some(r.key) then more
    else more.(view := shown, loading := false, navigation := None)
  }

  function ReloadArrived(s: Store, i: nat, answer: Response): Store
    requires i < |s.reloads| && s.reloads[i].write < |s.writes|
  {
    var r := s.reloads[i];
    var done := s.(reloads := s.reloads[i := r.(done := true)]);
    EndWrite(if Applies(s, r) then ApplyReload(done, r, answer) else done, r.write)
  }

  function WriteFailed(s: Store, w: nat): Store
    requires w < |s.writes|
  {
    var key := s.writes[w].key;
    var told := if s.writes[w].pending && (s.active.None? || s.active == Some(key)) then s.(loading := false) else s;
    EndWrite(told, w)
  }

  function Reset(s: Store): Store {
    Initial().(counter := s.counter + 1, navigations := s.navigations,
               requests := seq(|s.requests|, i requires 0 <= i < |s.requests| =>
                 s.requests[i].(cancelled := s.requests[i].cancelled || s.requests[i].pending, pending := false)),
               writes := StopWrites(s, _ => true), reloads := s.reloads,
               responses := s.responses, truncated := s.truncated)
  }

  datatype Step =
    | Load(key: TableKey, columns: Option<seq<string>>)
    | DataAnswer(request: nat, answer: Response)
    | DataError(request: nat)
    | CountAnswer(request: nat, total: int)
    | CountError(request: nat)
    | Cancel
    | Refresh(key: TableKey)
    | RefreshAnswer(request: nat, total: int)
    | RefreshError(request: nat)
    | ChangePage(page: int, direction: Option<Direction>)
    | ChangePageSize(size: int)
    | ChangeSort(sort: seq<Sort>)
    | DropSort(column: string)
    | ChangeFilter(filter: string)
    | Switch(key: TableKey)
    | CloseTable(key: TableKey)
    | CloseConnection(conn: string)
    | Stale(key: TableKey)
    | Emptied(key: TableKey)
    | Evicted(key: TableKey, id: nat)
    | WriteBegins(key: TableKey)
    | WriteDone(write: nat)
    | ReloadAnswer(reload: nat, answer: Response)
    | WriteError(write: nat)
    | ResetAll

  predicate Unanswered(s: Store, r: nat, kind: Kind) {
    r < |s.requests| && s.requests[r].kind == kind && !s.requests[r].answered
  }

  function Do(s: Store, step: Step): Store {
    match step
    case Load(key, columns) => LoadData(s, key, columns)
    case DataAnswer(r, answer) => if Unanswered(s, r, DataRequest) then DataArrived(s, r, answer) else s
    case DataError(r) => if Unanswered(s, r, DataRequest) then DataFailed(s, r) else s
    case CountAnswer(r, total) => if Unanswered(s, r, CountRequest) then CountArrived(s, r, total) else s
    case CountError(r) => if Unanswered(s, r, CountRequest) then Finish(s, r) else s
    case Cancel => CancelLoad(s)
    case Refresh(key) => RefreshPagination(s, key)
    case RefreshAnswer(r, total) => if Unanswered(s, r, RefreshRequest) then RefreshArrived(s, r, total) else s
    case RefreshError(r) => if Unanswered(s, r, RefreshRequest) then Finish(s, r) else s
    case ChangePage(page, direction) => SetPage(s, page, direction)
    case ChangePageSize(size) => SetPageSize(s, size)
    case ChangeSort(sort) => SetSort(s, sort)
    case DropSort(column) => RemoveSort(s, column)
    case ChangeFilter(filter) => SetFilter(s, filter)
    case Switch(key) => SwitchToTable(s, key)
    case CloseTable(key) => RemoveTable(s, key)
    case CloseConnection(conn) => RemoveConnection(s, conn)
    case Stale(key) => MarkStale(s, key)
    case Emptied(key) => AfterCleared(s, key)
    case Evicted(key, id) => Evict(s, key, id)
    case WriteBegins(key) => BeginWrite(s, key)
    case WriteDone(w) =>
      if w >= |s.writes| || s.writes[w].acknowledged then s
      else if s.writes[w].pending then BeginReload(s, w) else EndWrite(s, w)
    case ReloadAnswer(i, answer) =>
      if i < |s.reloads| && !s.reloads[i].done && s.reloads[i].write < |s.writes| then ReloadArrived(s, i, answer)
      else s
    case WriteError(w) => if w < |s.writes| then WriteFailed(s, w) else s
    case ResetAll => Reset(s)
  }
}
