/** The foreign-key cache of completion: the entry object itself is the generation. */
module ForeignKeyCache {
  import opened OrderedMaps
  import opened CompletionKeys

  /** What is known for a key: a load in flight, a result, or both for a moment. */
  class Entry<V> {
    const key: CacheKey
    ghost const started: nat
    var result: Option<V>
    var expiresAt: int
    var pending: bool

    constructor (key: CacheKey, ghost started: nat)
      ensures this.key == key && this.started == started && result == None && pending
    {
      this.key, this.started, result, expiresAt, pending := key, started, None, 0, true;
    }
  }

  datatype Answer<V> = Cached(result: V) | Wait(entry: Entry<V>)

  ghost predicate IsCurrent<V>(history: seq<Event>, e: Entry<V>) {
    CurrentSince(ForeignKeys, history, e.started, e.key)
  }

  /** Every entry of a key began after its last invalidation, and no load in flight is forgotten. */
  ghost predicate Flying<V>(entries: map<CacheKey, Entry<V>>, history: seq<Event>, issued: set<Entry<V>>,
                            resolved: set<Entry<V>>, settled: set<Entry<V>>) {
    && (forall e | e in issued :: e.started <= |history|)
    && (forall k | k in entries :: entries[k] in issued && entries[k].key == k && IsCurrent(history, entries[k]))
    && (forall e | e in issued && e !in resolved && e !in settled && IsCurrent(history, e) ::
          e.key in entries && entries[e.key] == e)
  }

  lemma FlightsMoved<V>(entries: map<CacheKey, Entry<V>>, history: seq<Event>, e: Event, issued: set<Entry<V>>,
                        resolved: set<Entry<V>>, settled: set<Entry<V>>)
    requires Flying(entries, history, issued, resolved, settled)
    ensures Flying(entries - (set k | k in entries && Affects(ForeignKeys, e, k)), history + [e], issued, resolved,
                   settled)
  {
    forall x | x in issued
      ensures IsCurrent(history + [e], x) <==> IsCurrent(history, x) && !Affects(ForeignKeys, e, x.key)
    {
      CurrentStep(ForeignKeys, history, e, x.started, x.key);
    }
  }

  lemma FlightBegins<V>(entries: map<CacheKey, Entry<V>>, history: seq<Event>, issued: set<Entry<V>>,
                        resolved: set<Entry<V>>, settled: set<Entry<V>>, e: Entry<V>)
    requires Flying(entries, history, issued, resolved, settled)
    requires e !in issued && e.started == |history| && e.key !in entries
    ensures Flying(entries[e.key := e], history, issued + {e}, resolved, settled) && IsCurrent(history, e)
  {
    assert IsCurrent(history, e);
  }

  /** An answer, and the entry it may push out: one that has its answer already. */
  lemma FlightAnswers<V>(entries: map<CacheKey, Entry<V>>, history: seq<Event>, issued: set<Entry<V>>,
                         resolved: set<Entry<V>>, settled: set<Entry<V>>, e: Entry<V>, gone: set<CacheKey>)
    requires Flying(entries, history, issued, resolved, settled)
    requires forall k | k in gone && k in entries :: entries[k] in resolved
    ensures Flying(entries - gone, history, issued, resolved + {e}, settled)
    ensures gone == {} ==> entries - gone == entries
  {
  }

  class SqlCompletionForeignKeyCache<V> {
    var entries: map<CacheKey, Entry<V>>
    var completed: OrderedMap<CacheKey, Entry<V>>
    ghost var history: seq<Event>
    ghost var issued: set<Entry<V>>
    /** Entries whose load has answered, and those whose load is over altogether. */
    ghost var resolved: set<Entry<V>>
    ghost var settled: set<Entry<V>>

    /** What is kept is the entry of its key, with a result; an entry that is not kept is still loading. */
    ghost predicate Kept()
      reads this`entries, this`completed, this`issued, this`resolved, this`settled, issued
    {
      && completed.Valid() && completed.Size() <= MAX_COMPLETED
      && (forall k | k in completed.at ::
            k in entries && entries[k] == completed.at[k] && entries[k] in issued && entries[k] in resolved
            && entries[k].result.Present?)
      && (forall k | k in entries && k !in completed.at ::
            entries[k] in issued && entries[k] !in resolved && entries[k] !in settled
            && entries[k].result.None? && entries[k].pending)
    }

    ghost predicate Valid()
      reads this, issued
    {
      Flying(entries, history, issued, resolved, settled) && Kept()
    }

    constructor ()
      ensures Valid() && history == [] && completed == Empty()
    {
      entries, completed, history, issued, resolved, settled := map[], Empty(), [], {}, {}, {};
    }

    /** Reads a kept result and makes it the youngest; an expired one leaves both maps. */
    method Peek(key: CacheKey, now: int) returns (found: Option<V>)
      requires Valid()
      modifies this`completed, this`entries
      ensures Valid()
      ensures found.Present? <==> key in old(completed).at && now < old(completed).at[key].expiresAt
      ensures found.Present? ==>
                && Present(found.value) == old(completed).at[key].result && IsCurrent(history, old(completed).at[key])
                && completed == old(completed).Renew(key, old(completed).at[key]) && entries == old(entries)
      ensures found.None? && key in old(completed).at ==>
                completed == old(completed).Remove(key) && entries == old(entries) - {key}
      ensures found.None? && key !in old(completed).at ==> completed == old(completed) && entries == old(entries)
    {
      hide Without, Distinct, CurrentSince;
      if key !in completed.at { return None; }
      var entry := completed.at[key];
      if now >= entry.expiresAt {
        completed := completed.Remove(key);
        if key in entries && entries[key] == entry { entries := entries - {key}; }
        return None;
      }
      RenewKeeps(completed, key);
      completed := completed.Renew(key, entry);
      return entry.result;
    }

    /** A new load is one more entry that is not kept. */
    twostate lemma KeptStarts(new entry: Entry<V>)
      requires old(Kept()) && entry.key !in old(completed).at
      requires completed == old(completed) && resolved == old(resolved) && settled == old(settled)
      requires entries == old(entries)[entry.key := entry] && issued == old(issued) + {entry}
      requires entry.result.None? && entry.pending && entry !in resolved && entry !in settled
      requires forall e | e in old(issued) :: e.result == old(e.result) && e.pending == old(e.pending)
      ensures Kept()
    {
      hide OrderedMap.Valid;
    }

    /** Answers from what is kept, joins the load in flight, or starts one. */
    method Get(key: CacheKey, now: int) returns (answer: Answer<V>)
      requires Valid()
      modifies this`completed, this`entries, this`issued
      ensures Valid()
      ensures answer.Cached? <==> key in old(completed).at && now < old(completed).at[key].expiresAt
      ensures answer.Cached? ==> Present(answer.result) == old(completed).at[key].result
      ensures answer.Wait? ==> key in entries && entries[key] == answer.entry && answer.entry.key == key
      ensures answer.Wait? ==> answer.entry.pending && IsCurrent(history, answer.entry)
      ensures answer.Wait? ==>
                if key in old(entries) && key !in old(completed).at then answer.entry == old(entries)[key]
                else fresh(answer.entry) && answer.entry.started == |history|
    {
      hide Without, Distinct, CurrentSince, OrderedMap.Renew, OrderedMap.Remove, OrderedMap.Valid;
      var found := Peek(key, now);
      if found.Present? { return Cached(found.value); }
      assert key !in completed.at;
      assert key in entries ==> entries[key].pending && IsCurrent(history, entries[key]);
      hide Flying;
      if key in entries && entries[key].pending { return Wait(entries[key]); }
      label Missed:
      var entry := new Entry(key, |history|);
      FlightBegins(entries, history, issued, resolved, settled, entry);
      entries := entries[key := entry];
      issued := issued + {entry};
      hide Kept;
      KeptStarts@Missed(entry);
      return Wait(entry);
    }

    /** An entry that was loading is kept with its result, and the oldest one gives way. */
    twostate lemma KeptOneMore(entry: Entry<V>)
      requires old(Kept()) && old(entry.key in entries && entries[entry.key] == entry && entry.key !in completed.at)
      requires forall k | k in old(entries) :: old(entries)[k].key == k
      requires issued == old(issued) && settled == old(settled) && resolved == old(resolved) + {entry}
      requires forall e | e in issued && e != entry :: e.result == old(e.result) && e.pending == old(e.pending)
      requires entry.result.Present? && completed.Valid() && completed.Size() <= MAX_COMPLETED
      requires completed.at == (old(completed).at - old(Oldest()))[entry.key := entry]
      requires entries == old(entries) - old(Oldest())
      ensures Kept()
    {
      assert entry.key !in old(Oldest());
    }

    /** The load of an entry answers: the result is kept exactly when the entry is still the one of its key. */
    method Resolve(entry: Entry<V>, result: V, now: int)
      requires Valid() && entry in issued && entry !in resolved && entry !in settled
      modifies this`completed, this`entries, this`resolved, entry
      ensures Valid()
      ensures IsCurrent(history, entry) <==> entry.key in old(entries) && old(entries)[entry.key] == entry
      ensures !IsCurrent(history, entry) ==>
                completed == old(completed) && entries == old(entries) && entry.result == old(entry.result)
      ensures IsCurrent(history, entry) ==>
                && entry.key in completed.at && completed.at[entry.key] == entry
                && entry.result == Present(result) && entry.expiresAt == now + TTL
                && completed == Trimmed(old(completed).Put(entry.key, entry), MAX_COMPLETED)
    {
      hide Without, Distinct, CurrentSince, Trimmed, OrderedMap.Put, OrderedMap.Remove;
      ghost var kept := entry.key in entries && entries[entry.key] == entry;
      ghost var gone := if kept then Oldest() else {};
      FlightAnswers(entries, history, issued, resolved, settled, entry, gone);
      assert kept ==> entry.key !in completed.at;
      assert IsCurrent(history, entry) <==> kept;
      hide Flying, IsCurrent, Oldest, OrderedMap.Valid;
      resolved := resolved + {entry};
      if entry.key in entries && entries[entry.key] == entry {
        hide Kept;
        entry.result, entry.expiresAt := Present(result), now + TTL;
        Keep(entry);
        KeptOneMore(entry);
      }
    }

    /** The keys that make room for one more. */
    ghost function Oldest(): set<CacheKey>
      reads this`completed
    {
      if completed.Size() == MAX_COMPLETED then {completed.order[0]} else {}
    }

    method Keep(entry: Entry<V>)
      requires completed.Valid() && completed.Size() <= MAX_COMPLETED && entry.key !in completed.at
      modifies this`completed, this`entries
      ensures completed == Trimmed(old(completed).Put(entry.key, entry), MAX_COMPLETED)
      ensures completed.Valid() && completed.Size() <= MAX_COMPLETED
      ensures completed.at == (old(completed).at - old(Oldest()))[entry.key := entry]
      ensures entries == old(entries) - old(Oldest())
    {
      TrimmedPut(completed, entry.key, entry, MAX_COMPLETED);
      hide Trimmed, Without, Distinct;
      ghost var put := completed.Put(entry.key, entry);
      completed := completed.Put(entry.key, entry);
      while completed.Size() > MAX_COMPLETED
        invariant || (completed == put && entries == old(entries))
                  || (put.Size() > MAX_COMPLETED && completed == put.Remove(put.order[0])
                      && entries == old(entries) - {put.order[0]})
        decreases completed.Size()
      {
        assert completed == put && put.order[0] in put.at;
        var oldest := completed.order[0];
        completed := completed.Remove(oldest);
        entries := entries - {oldest};
      }
    }

    /** The end of a load; one that failed leaves no entry behind. */
    method Finish(entry: Entry<V>)
      requires Valid() && entry in issued
      modifies this`entries, this`settled, entry
      ensures Valid() && settled == old(settled) + {entry}
      ensures entries == if entry.key in old(entries) && old(entries)[entry.key] == entry && entry.result.None?
                         then old(entries) - {entry.key} else old(entries)
    {
      settled := settled + {entry};
      if entry.key in entries && entries[entry.key] == entry {
        entry.pending := false;
        if entry.result.None? { entries := entries - {entry.key}; }
      }
    }

    /** Entries of affected keys leave both maps, loading or kept. */
    method Sweep(e: Event)
      requires completed.Valid() && forall k | k in entries :: entries[k].key == k
      modifies this`entries, this`completed
      ensures entries == old(entries) - (set k | k in old(entries) && Affects(ForeignKeys, e, k))
      ensures completed == old(completed).RemoveAll(set k | k in old(entries) && Affects(ForeignKeys, e, k))
    {
      hide Without, Distinct, Minus, OrderedMap.RemoveAll, OrderedMap.Remove, OrderedMap.Valid, Affects;
      var was, left := entries, entries.Keys;
      ghost var kept, gone: set<CacheKey> := completed, {};
      RemoveNone(completed);
      while left != {}
        invariant left <= was.Keys && gone == set k | k in was.Keys - left && Affects(ForeignKeys, e, k)
        invariant entries == was - gone
        invariant completed == kept.RemoveAll(gone)
        decreases |left|
      {
        var k :| k in left;
        left := left - {k};
        if Affects(ForeignKeys, e, was[k].key) {
          RemoveOneMore(kept, gone, k);
          gone := gone + {k};
          entries := entries - {k};
          completed := completed.Remove(k);
        }
      }
      assert gone == set k | k in was && Affects(ForeignKeys, e, k);
    }

    method Invalidate(e: Event)
      requires Valid()
      modifies this`entries, this`completed, this`history
      ensures Valid() && history == old(history) + [e]
      ensures entries == old(entries) - (set k | k in old(entries) && Affects(ForeignKeys, e, k))
      ensures completed == old(completed).RemoveAll(set k | k in old(entries) && Affects(ForeignKeys, e, k))
    {
      hide Minus, Distinct;
      FlightsMoved(entries, history, e, issued, resolved, settled);
      hide Flying;
      Sweep(e);
      history := history + [e];
    }
  }
}
