/** Batched table lists: callers that ask for the same databases share one request, each in its own order. */
module TableBatches {
  import opened Invalidation

  // ---- names in an order ----

  /**
   Character by character.  The original compares UTF-16 units, which orders names beyond the basic plane otherwise;
   what is proved here holds of any total order.
   */
  predicate Before(a: Name, b: Name) {
    b != [] && (a == [] || a[0] < b[0] || (a[0] == b[0] && Before(a[1..], b[1..])))
  }

  lemma {:induction false} BeforeTotal(a: Name, b: Name)
    ensures a == b || Before(a, b) || Before(b, a)
    ensures !(Before(a, b) && Before(b, a)) && !Before(a, a)
  {
    if a != [] && b != [] {
      BeforeTotal(a[1..], b[1..]);
      if a[0] == b[0] { assert a == [a[0]] + a[1..] && b == [b[0]] + b[1..]; }
    }
    if a != [] { BeforeTotal(a[1..], a[1..]); }
  }

  lemma {:induction false} BeforeTransitive(a: Name, b: Name, c: Name)
    requires Before(a, b) && Before(b, c)
    ensures Before(a, c)
  {
    if a != [] && a[0] == b[0] && b[0] == c[0] { BeforeTransitive(a[1..], b[1..], c[1..]); }
  }

  ghost predicate StrictlySorted(ns: seq<Name>) {
    forall i, j | 0 <= i < j < |ns| :: Before(ns[i], ns[j])
  }

  function Insert(n: Name, ns: seq<Name>): (r: seq<Name>)
    ensures forall x :: x in r <==> x == n || x in ns
  {
    if ns == [] || Before(n, ns[0]) then [n] + ns
    else [ns[0]] + Insert(n, ns[1..])
  }

  /** The distinct names of a list, sorted. */
  function Sorted(ns: seq<Name>): (r: seq<Name>)
    ensures forall x :: x in r <==> x in ns
  {
    if ns == [] then []
    else
      var r := Sorted(ns[..|ns| - 1]);
      assert ns == ns[..|ns| - 1] + [ns[|ns| - 1]];
      Insert(ns[|ns| - 1], r)
  }

  lemma {:induction false} InsertSorted(n: Name, ns: seq<Name>)
    requires StrictlySorted(ns) && n !in ns
    ensures StrictlySorted(Insert(n, ns))
  {
    if ns != [] {
      BeforeTotal(n, ns[0]);
      if Before(n, ns[0]) {
        forall j | 0 <= j < |ns| ensures Before(n, ns[j]) { if j > 0 { BeforeTransitive(n, ns[0], ns[j]); } }
      } else {
        InsertSorted(n, ns[1..]);
        var r := Insert(n, ns[1..]);
        forall j | 0 <= j < |r| ensures Before(ns[0], r[j]) { assert r[j] in r; }
      }
    }
  }

  ghost predicate NoRepeats(ns: seq<Name>) {
    forall i, j | 0 <= i < j < |ns| :: ns[i] != ns[j]
  }

  lemma {:induction false} SortedSorted(ns: seq<Name>)
    requires NoRepeats(ns)
    ensures StrictlySorted(Sorted(ns))
  {
    if ns != [] {
      SortedSorted(ns[..|ns| - 1]);
      InsertSorted(ns[|ns| - 1], Sorted(ns[..|ns| - 1]));
    }
  }

  /** A strictly sorted list is determined by its elements. */
  lemma {:induction false} SortedUnique(a: seq<Name>, b: seq<Name>)
    requires StrictlySorted(a) && StrictlySorted(b) && forall x :: x in a <==> x in b
    ensures a == b
  {
    assert b == [] || b[0] in a;
    if a != [] {
      assert a[0] in b && b != [] && b[0] in a;
      var i :| 0 <= i < |b| && b[i] == a[0];
      var j :| 0 <= j < |a| && a[j] == b[0];
      BeforeTotal(a[0], b[0]);
      assert a[0] == b[0];
      forall x ensures x in a[1..] <==> x in b[1..] {
        BeforeTotal(a[0], a[0]);
        assert x in a[1..] ==> x in a && x != a[0];
        assert x in b[1..] ==> x in b && x != b[0];
        assert x in a && x != a[0] ==> x in a[1..];
        assert x in b && x != b[0] ==> x in b[1..];
      }
      SortedUnique(a[1..], b[1..]);
      assert a == [a[0]] + a[1..] && b == [b[0]] + b[1..];
    }
  }

  /** Each name once, where it first occurs. */
  function Distinct(ns: seq<Name>): (r: seq<Name>)
    ensures NoRepeats(r) && forall x :: x in r <==> x in ns
  {
    if ns == [] then []
    else
      var init, last := ns[..|ns| - 1], ns[|ns| - 1];
      assert ns == init + [last];
      var r := Distinct(init);
      if last in r then r else r + [last]
  }

  function Normalized(databases: seq<Name>): seq<Name> {
    Sorted(Distinct(databases))
  }

  /** Two callers share a key exactly when they ask for the same set of databases. */
  lemma NormalizedIff(a: seq<Name>, b: seq<Name>)
    ensures Normalized(a) == Normalized(b) <==> forall x :: x in a <==> x in b
  {
    SortedSorted(Distinct(a));
    SortedSorted(Distinct(b));
    if forall x :: x in a <==> x in b {
      SortedUnique(Normalized(a), Normalized(b));
    } else {
      assert forall x :: x in a <==> x in Normalized(a);
      assert forall x :: x in b <==> x in Normalized(b);
    }
  }

  // ---- requests ----

  const MAX_DATABASES := 256

  datatype TableList = TableList(database: Name, tables: seq<Name>)

  datatype Key = Key(conn: Name, databases: seq<Name>, generation: Generation)

  /** A call in flight; `issued` is how much had been invalidated when it was sent. */
  class Request {
    const conn: Name
    const databases: seq<Name>
    ghost const issued: nat

    constructor (conn: Name, databases: seq<Name>, ghost issued: nat)
      ensures this.conn == conn && this.databases == databases && this.issued == issued
    {
      this.conn, this.databases, this.issued := conn, databases, issued;
    }
  }

  /** How a caller goes on: nothing to read, too much to read, or waiting for a request. */
  datatype Asked = Nothing | TooMany | Waiting(requested: seq<Name>, key: Key, request: Request)

  datatype Reply = Lists(entries: seq<TableList>) | MissingDatabase(name: Name) | Rejected

  /** The last entry for a database, as a map built from the list keeps it. */
  function EntryFor(entries: seq<TableList>, database: Name): (i: int)
    ensures -1 <= i < |entries|
    ensures i >= 0 ==> entries[i].database == database
    ensures forall j | i < j < |entries| :: entries[j].database != database
  {
    if entries == [] then -1
    else if entries[|entries| - 1].database == database then |entries| - 1
    else EntryFor(entries[..|entries| - 1], database)
  }

  /** A request sent for a key, in the generation the key names. */
  ghost predicate SentFor(history: seq<Event>, k: Key, r: Request) {
    && r.conn == k.conn && r.databases == k.databases && r.issued <= |history|
    && k.generation == Capture(After(history[..r.issued]), k.conn, Scope.Some(k.databases))
  }

  /** Nothing of its databases was invalidated since it was sent. */
  ghost predicate Current(history: seq<Event>, r: Request) {
    r.issued <= |history| && Untouched(history[r.issued..], r.conn, Scope.Some(r.databases))
  }

  lemma SentKept(history: seq<Event>, e: Event, k: Key, r: Request)
    requires SentFor(history, k, r)
    ensures SentFor(history + [e], k, r)
  {
    assert (history + [e])[..r.issued] == history[..r.issued];
  }

  /** The key of a request is the one a caller computes now exactly when the request is current. */
  lemma CurrentIff(history: seq<Event>, k: Key, r: Request)
    requires SentFor(history, k, r)
    ensures k.generation == Capture(After(history), k.conn, Scope.Some(k.databases)) <==> Current(history, r)
  {
    assert history[..r.issued] + history[r.issued..] == history;
    CaptureExact(history[..r.issued], history[r.issued..], k.conn, Scope.Some(k.databases));
  }

  class TableBatchReader {
    var revisions: Revisions
    var requests: map<Key, Request>
    ghost var history: seq<Event>

    ghost predicate Valid()
      reads this
    {
      revisions == After(history) && forall k | k in requests :: SentFor(history, k, requests[k])
    }

    constructor ()
      ensures Valid() && history == [] && requests == map[]
    {
      revisions, requests, history := map[], map[], [];
    }

    /** An invalidation of a generation alone; requests in flight stay where they are. */
    method InvalidateScope(conn: Name, database: Target)
      requires Valid()
      modifies this`revisions, this`history
      ensures Valid() && history == old(history) + [Event(conn, database)]
    {
      var e := Event(conn, database);
      AfterStep(history, e);
      hide After, Capture, Invalidated;
      forall k | k in requests ensures SentFor(history + [e], k, requests[k]) {
        SentKept(history, e, k, requests[k]);
      }
      revisions := Invalidated(revisions, e);
      history := history + [e];
    }

    /** An invalidation that also takes away the requests its scope meets. */
    method Invalidate(conn: Name, database: Target)
      requires Valid()
      modifies this
      ensures Valid() && history == old(history) + [Event(conn, database)]
      ensures requests == map k | k in old(requests)
                && !Intersects(Event(conn, database), k.conn, Scope.Some(k.databases)) :: old(requests)[k]
    {
      InvalidateScope(conn, database);
      requests := map k | k in requests
        && !(requests[k].conn == conn && (database.Everything? || database.name in requests[k].databases)) ::
             requests[k];
    }

    /** A caller joins a request in flight exactly when one for the same databases is still current. */
    method Ask(conn: Name, databases: seq<Name>) returns (ask: Asked)
      requires Valid()
      modifies this`requests
      ensures Valid()
      ensures ask.Nothing? <==> databases == []
      ensures ask.TooMany? <==> |Distinct(databases)| > MAX_DATABASES
      ensures !ask.Waiting? ==> requests == old(requests)
      ensures ask.Waiting? ==>
                && ask.requested == Distinct(databases)
                && ask.request.conn == conn && ask.request.databases == Normalized(databases)
                && Current(history, ask.request)
                && requests == old(requests)[ask.key := ask.request]
                && ask.key.generation == Capture(After(history), conn, Scope.Some(Normalized(databases)))
                && (ask.key in old(requests) <==>
                      exists k | k in old(requests) ::
                        k.conn == conn && k.databases == Normalized(databases) && Current(history, old(requests)[k]))
                && (ask.key in old(requests) ==> ask.request == old(requests)[ask.key])
                && (ask.key !in old(requests) ==> fresh(ask.request) && ask.request.issued == |history|)
    {
      var requested := Distinct(databases);
      assert requested == [] <==> databases == [] by { if databases != [] { assert databases[0] in requested; } }
      if |requested| == 0 { return Nothing; }
      if |requested| > MAX_DATABASES { return TooMany; }
      var normalized := Sorted(requested);
      var scope := Scope.Some(normalized);
      var key := Key(conn, normalized, Capture(revisions, conn, scope));
      forall k | k in requests && k.conn == conn && k.databases == normalized
        ensures k == key <==> Current(history, requests[k])
      {
        CurrentIff(history, k, requests[k]);
      }
      hide After, Capture, Sorted, Distinct;
      var request;
      if key in requests {
        request := requests[key];
      } else {
        request := new Request(conn, normalized, |history|);
        requests := requests[key := request];
        assert history[..|history|] == history;
      }
      return Waiting(requested, key, request);
    }

    /** The request settles: the caller's entries in the caller's order, or the first database left out. */
    method Settle(ask: Asked, entries: Option<seq<TableList>>) returns (reply: Reply)
      requires Valid() && ask.Waiting?
      modifies this`requests
      ensures Valid()
      ensures requests == if ask.key in old(requests) && old(requests)[ask.key] == ask.request
                          then old(requests) - {ask.key} else old(requests)
      ensures reply.Rejected? <==> entries.None?
      ensures reply.Lists? ==> |reply.entries| == |ask.requested|
      ensures reply.Lists? ==>
                forall i | 0 <= i < |ask.requested| ::
                  reply.entries[i].database == ask.requested[i] && reply.entries[i] in entries.value
      ensures reply.MissingDatabase? ==>
                reply.name in ask.requested && forall e | e in entries.value :: e.database != reply.name
      ensures entries.Present?
              && (forall d | d in ask.requested :: exists e | e in entries.value :: e.database == d) ==>
                reply.Lists?
    {
      if ask.key in requests && requests[ask.key] == ask.request { requests := requests - {ask.key}; }
      match entries {
        case None => return Rejected;
        case Present(all) =>
          var lists: seq<TableList> := [];
          for i := 0 to |ask.requested|
            invariant |lists| == i
            invariant forall j | 0 <= j < i :: lists[j].database == ask.requested[j] && lists[j] in all
          {
            var at := EntryFor(all, ask.requested[i]);
            if at < 0 { return MissingDatabase(ask.requested[i]); }
            lists := lists + [all[at]];
          }
          return Lists(lists);
      }
    }
  }

  datatype Option<+T> = None | Present(value: T)
}
