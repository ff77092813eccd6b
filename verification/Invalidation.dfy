/** Generations of cached metadata: counters that answer whether anything in a scope was invalidated. */
module Invalidation {
  type Name = string

  datatype Scope = Whole | Some(databases: seq<Name>)

  /** Everything of a connection, or one of its databases. */
  datatype Event = Event(conn: Name, database: Target)

  datatype Target = Everything | Database(name: Name)

  datatype Revision = Revision(connection: nat, any: nat, databases: map<Name, nat>)

  datatype Generation = WholeGeneration(connection: nat, any: nat)
    | SomeGeneration(connection: nat, databases: seq<nat>)

  type Revisions = map<Name, Revision>

  function Of(rs: Revisions, conn: Name): Revision {
    if conn in rs then rs[conn] else Revision(0, 0, map[])
  }

  function CountOf(r: Revision, database: Name): nat {
    if database in r.databases then r.databases[database] else 0
  }

  function Invalidated(rs: Revisions, e: Event): Revisions {
    var r := Of(rs, e.conn);
    rs[e.conn := match e.database
                 case Everything => Revision(r.connection + 1, r.any + 1, map[])
                 case Database(name) => Revision(r.connection, r.any + 1, r.databases[name := CountOf(r, name) + 1])]
  }

  function Capture(rs: Revisions, conn: Name, scope: Scope): Generation {
    var r := Of(rs, conn);
    match scope
    case Whole => WholeGeneration(r.connection, r.any)
    case Some(databases) =>
      SomeGeneration(r.connection, seq(|databases|, i requires 0 <= i < |databases| => CountOf(r, databases[i])))
  }

  /** The counters after a history of invalidations. */
  function After(history: seq<Event>): Revisions {
    if history == [] then map[] else Invalidated(After(history[..|history| - 1]), history[|history| - 1])
  }

  predicate Intersects(e: Event, conn: Name, scope: Scope) {
    e.conn == conn && (scope.Whole? || e.database.Everything? || e.database.name in scope.databases)
  }

  predicate Untouched(events: seq<Event>, conn: Name, scope: Scope) {
    forall i | 0 <= i < |events| :: !Intersects(events[i], conn, scope)
  }

  /** No counter of a connection goes back, except those of databases when the connection's own advances. */
  ghost predicate Advances(a: Revision, b: Revision) {
    && a.connection <= b.connection && a.any <= b.any
    && (a.connection == b.connection ==> forall d :: CountOf(a, d) <= CountOf(b, d))
  }

  lemma {:induction false} LaterAdvances(history: seq<Event>, more: seq<Event>, conn: Name)
    ensures Advances(Of(After(history), conn), Of(After(history + more), conn))
  {
    if more == [] {
      assert history + more == history;
    } else {
      var init, e := more[..|more| - 1], more[|more| - 1];
      LaterAdvances(history, init, conn);
      assert (history + more)[..|history + more| - 1] == history + init;
    }
  }

  lemma AfterStep(history: seq<Event>, e: Event)
    ensures After(history + [e]) == Invalidated(After(history), e)
  {
    assert (history + [e])[..|history|] == history;
  }

  lemma {:induction false} UntouchedKeeps(history: seq<Event>, more: seq<Event>, conn: Name, scope: Scope)
    requires Untouched(more, conn, scope)
    ensures Capture(After(history + more), conn, scope) == Capture(After(history), conn, scope)
  {
    if more == [] {
      assert history + more == history;
    } else {
      var init, e := more[..|more| - 1], more[|more| - 1];
      UntouchedKeeps(history, init, conn, scope);
      assert history + more == (history + init) + [e];
      AfterStep(history + init, e);
      assert !Intersects(e, conn, scope);
    }
  }

  lemma TouchMoves(rs: Revisions, e: Event, conn: Name, scope: Scope)
    requires Intersects(e, conn, scope)
    ensures var (a, b) := (Of(rs, conn), Of(Invalidated(rs, e), conn));
            || a.connection < b.connection
            || (scope.Whole? && a.any < b.any)
            || (scope.Some?
                && exists i ::
                     0 <= i < |scope.databases| && CountOf(a, scope.databases[i]) < CountOf(b, scope.databases[i]))
  {
    if scope.Some? && e.database.Database? {
      var i :| 0 <= i < |scope.databases| && scope.databases[i] == e.database.name;
    }
  }

  /**
   Two captures agree exactly when no invalidation between them touches their scope: clearing
   the per-database counters never brings an old generation back.
   */
  lemma CaptureExact(history: seq<Event>, more: seq<Event>, conn: Name, scope: Scope)
    ensures Capture(After(history), conn, scope) == Capture(After(history + more), conn, scope)
            <==> Untouched(more, conn, scope)
  {
    hide After, Capture, Invalidated, Advances, CountOf;
    if Untouched(more, conn, scope) {
      UntouchedKeeps(history, more, conn, scope);
    } else {
      var k :| 0 <= k < |more| && Intersects(more[k], conn, scope);
      var before, after := history + more[..k], history + more[..k + 1];
      assert after == before + [more[k]];
      AfterStep(before, more[k]);
      LaterAdvances(history, more[..k], conn);
      LaterAdvances(before, [more[k]], conn);
      LaterAdvances(after, more[k + 1..], conn);
      assert after + more[k + 1..] == history + more;
      TouchMoves(After(before), more[k], conn, scope);
      CapturesDiffer(After(history), After(before), After(after), After(history + more), conn, scope);
    }
  }

  lemma CapturesDiffer(a: Revisions, b: Revisions, c: Revisions, d: Revisions, conn: Name, scope: Scope)
    requires Advances(Of(a, conn), Of(b, conn)) && Advances(Of(b, conn), Of(c, conn))
             && Advances(Of(c, conn), Of(d, conn))
    requires var (x, y) := (Of(b, conn), Of(c, conn));
            || x.connection < y.connection
            || (scope.Whole? && x.any < y.any)
            || (scope.Some?
                && exists i ::
                     0 <= i < |scope.databases| && CountOf(x, scope.databases[i]) < CountOf(y, scope.databases[i]))
    ensures Capture(a, conn, scope) != Capture(d, conn, scope)
  {
    if Of(a, conn).connection == Of(d, conn).connection && scope.Some? {
      var i :| 0 <= i < |scope.databases|
              && CountOf(Of(b, conn), scope.databases[i]) < CountOf(Of(c, conn), scope.databases[i]);
      assert Capture(a, conn, scope).databases[i] < Capture(d, conn, scope).databases[i];
    }
  }

  /** The counters, updated in place. */
  class MetadataRevisions {
    var revisions: Revisions
    ghost var history: seq<Event>

    ghost predicate Valid()
      reads this
    {
      revisions == After(history)
    }

    constructor ()
      ensures Valid() && history == []
    {
      revisions, history := map[], [];
    }

    method Invalidate(conn: Name, database: Target)
      requires Valid()
      modifies this
      ensures Valid() && history == old(history) + [Event(conn, database)]
    {
      var r := if conn in revisions then revisions[conn] else Revision(0, 0, map[]);
      r := r.(any := r.any + 1);
      match database {
        case Everything => r := r.(connection := r.connection + 1, databases := map[]);
        case Database(name) => r := r.(databases := r.databases[name := CountOf(r, name) + 1]);
      }
      revisions := revisions[conn := r];
      history := history + [Event(conn, database)];
      AfterStep(old(history), Event(conn, database));
    }

    /** A generation equals one captured earlier exactly when nothing in its scope was invalidated since. */
    method Generation(conn: Name, scope: Scope, ghost since: nat) returns (g: Generation)
      requires Valid() && since <= |history|
      ensures g == Capture(After(history), conn, scope)
      ensures g == Capture(After(history[..since]), conn, scope) <==> Untouched(history[since..], conn, scope)
    {
      g := Capture(revisions, conn, scope);
      assert history[..since] + history[since..] == history;
      CaptureExact(history[..since], history[since..], conn, scope);
    }
  }
}
