/** What both completion caches share: keys, invalidations, and what it takes for a result to be current. */
module CompletionKeys {
  type Name = string

  datatype Option<+T> = None | Present(value: T)

  datatype CacheKey = CacheKey(conn: Name, database: Option<Name>, dialect: Name, revision: nat)

  datatype Reason = SchemaChange | Refresh | Disconnect

  /** An event without a database concerns the whole connection; a database may also be the null one. */
  datatype Event = Event(conn: Name, database: Option<Option<Name>>, reason: Reason)

  const TTL := 60_000
  const MAX_COMPLETED := 8

  datatype Policy = Catalog | ForeignKeys

  /** The catalog of a database changes with it; foreign keys may cross to any database of the connection. */
  predicate Affects(policy: Policy, e: Event, key: CacheKey) {
    match policy
    case Catalog =>
      e.conn == key.conn && (e.reason == Disconnect || e.database.None? || e.database.value == key.database)
    case ForeignKeys =>
      e.conn == key.conn
      && (e.reason == SchemaChange || e.reason == Disconnect || e.database.None? || e.database.value == key.database)
  }

  /** Nothing that affects the key has happened since. */
  predicate CurrentSince(policy: Policy, history: seq<Event>, since: nat, key: CacheKey) {
    since <= |history| && forall i | since <= i < |history| :: !Affects(policy, history[i], key)
  }

  /** The wider invalidation keeps less: whatever is current for foreign keys is current for the catalog. */
  lemma ForeignKeysWider(history: seq<Event>, since: nat, key: CacheKey)
    requires CurrentSince(ForeignKeys, history, since, key)
    ensures CurrentSince(Catalog, history, since, key)
  {
    forall i | since <= i < |history| ensures !Affects(Catalog, history[i], key) {
      assert !Affects(ForeignKeys, history[i], key);
    }
  }

  /** The two agree except on a schema change of another database. */
  lemma PoliciesDiffer(e: Event, key: CacheKey)
    ensures Affects(ForeignKeys, e, key) != Affects(Catalog, e, key) <==>
              e.conn == key.conn && e.reason == SchemaChange && e.database.Present? && e.database.value != key.database
  {
  }

  lemma CurrentStep(policy: Policy, history: seq<Event>, e: Event, since: nat, key: CacheKey)
    requires since <= |history|
    ensures CurrentSince(policy, history + [e], since, key) <==>
              CurrentSince(policy, history, since, key) && !Affects(policy, e, key)
  {
    if CurrentSince(policy, history + [e], since, key) {
      forall i | since <= i < |history| ensures !Affects(policy, history[i], key) {
        assert (history + [e])[i] == history[i];
      }
      assert (history + [e])[|history|] == e;
    }
  }
}
