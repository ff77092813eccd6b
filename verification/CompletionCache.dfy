/** The catalog cache of completion: numeric generations, shared loads, a lifetime and a bound on what is kept. */
module CompletionCache {
  import opened OrderedMaps
  import opened CompletionKeys

  /** A load in flight; `started` is how many invalidations came before it. */
  class Request {
    const key: CacheKey
    const generation: nat
    ghost const started: nat

    constructor (key: CacheKey, generation: nat, ghost started: nat)
      ensures this.key == key && this.generation == generation && this.started == started
    {
      this.key, this.generation, this.started := key, generation, started;
    }
  }

  datatype Entry<+V> = Entry(index: V, expiresAt: int)

  datatype Answer<+V> = Cached(index: V) | Wait(request: Request)

  ghost predicate IsCurrent(history: seq<Event>, r: Request) {
    CurrentSince(Catalog, history, r.started, r.key)
  }

  /** A generation still equals a request's exactly when nothing has affected its key since it began. */
  ghost predicate Generational(generations: map<CacheKey, nat>, keys: seq<CacheKey>, history: seq<Event>,
                               issued: set<Request>) {
    && (forall k :: k in keys <==> k in generations)
    && forall r | r in issued ::
         && r.started <= |history| && r.key in generations && r.generation <= generations[r.key]
         && (generations[r.key] == r.generation <==> IsCurrent(history, r))
  }

  /** What is in flight for a key is its one unsettled current request. */
  ghost predicate Flying(inFlight: map<CacheKey, Request>, history: seq<Event>, issued: set<Request>,
                         settled: set<Request>) {
    && (forall k | k in inFlight ::
          inFlight[k] in issued && inFlight[k] !in settled && inFlight[k].key == k && IsCurrent(history, inFlight[k]))
    && (forall r | r in issued && r !in settled && IsCurrent(history, r) :: r.key in inFlight && inFlight[r.key] == r)
  }

  /** Every kept entry comes from a request that began after the last invalidation of its key. */
  ghost predicate NotRevived<V>(completed: OrderedMap<CacheKey, Entry<V>>, origin: map<CacheKey, Request>,
                                history: seq<Event>, issued: set<Request>, resolved: set<Request>) {
    && completed.Valid() && completed.Size() <= MAX_COMPLETED
    && forall k | k in completed.at ::
         k in origin && origin[k] in issued && origin[k] in resolved && origin[k].key == k
         && IsCurrent(history, origin[k])
  }

  /** After an event, generations that moved are those of affected keys, and only current requests stay. */
  lemma GenerationsMoved(generations: map<CacheKey, nat>, generations': map<CacheKey, nat>, keys: seq<CacheKey>,
                         history: seq<Event>, e: Event, issued: set<Request>)
    requires Generational(generations, keys, history, issued)
    requires forall k :: k in generations' <==> k in generations
    requires forall k | k in generations ::
               if Affects(Catalog, e, k) then generations'[k] > generations[k] else generations'[k] == generations[k]
    ensures Generational(generations', keys, history + [e], issued)
  {
    forall r | r in issued
      ensures IsCurrent(history + [e], r) <==> IsCurrent(history, r) && !Affects(Catalog, e, r.key)
    {
      CurrentStep(Catalog, history, e, r.started, r.key);
    }
  }

  lemma FlightsMoved(inFlight: map<CacheKey, Request>, inFlight': map<CacheKey, Request>, history: seq<Event>, e: Event,
                     issued: set<Request>, settled: set<Request>)
    requires Flying(inFlight, history, issued, settled) && forall r | r in issued :: r.started <= |history|
    requires forall k :: k in inFlight' <==> k in inFlight && !Affects(Catalog, e, k)
    requires forall k | k in inFlight' :: inFlight'[k] == inFlight[k]
    ensures Flying(inFlight', history + [e], issued, settled)
  {
    forall r | r in issued
      ensures IsCurrent(history + [e], r) <==> IsCurrent(history, r) && !Affects(Catalog, e, r.key)
    {
      CurrentStep(Catalog, history, e, r.started, r.key);
    }
  }

  lemma KeptMoved<V>(completed: OrderedMap<CacheKey, Entry<V>>, completed': OrderedMap<CacheKey, Entry<V>>,
                     origin: map<CacheKey, Request>, history: seq<Event>, e: Event, issued: set<Request>,
                     resolved: set<Request>)
    requires NotRevived(completed, origin, history, issued, resolved)
             && forall r | r in issued :: r.started <= |history|
    requires completed'.Valid() && completed'.Size() <= MAX_COMPLETED
    requires forall k :: k in completed'.at <==> k in completed.at && !Affects(Catalog, e, k)
    ensures NotRevived(completed', origin, history + [e], issued, resolved)
  {
    forall k | k in completed'.at ensures IsCurrent(history + [e], origin[k]) {
      CurrentStep(Catalog, history, e, origin[k].started, k);
    }
  }

  /** A request for a key that has none in flight. */
  lemma AskedOnce(generations: map<CacheKey, nat>, keys: seq<CacheKey>, inFlight: map<CacheKey, Request>,
                  history: seq<Event>, issued: set<Request>, settled: set<Request>, r: Request)
    requires Generational(generations, keys, history, issued) && Flying(inFlight, history, issued, settled)
    requires r.key !in inFlight && r !in issued && r !in settled && r.started == |history|
    requires r.generation == if r.key in generations then generations[r.key] else 0
    ensures Generational(generations[r.key := r.generation], if r.key in keys then keys else keys + [r.key],
                         history, issued + {r})
    ensures Flying(inFlight[r.key := r], history, issued + {r}, settled)
  {
    assert IsCurrent(history, r);
  }

  lemma KeptWithMore<V>(completed: OrderedMap<CacheKey, Entry<V>>, origin: map<CacheKey, Request>, history: seq<Event>,
                        issued: set<Request>, issued': set<Request>, resolved: set<Request>)
    requires NotRevived(completed, origin, history, issued, resolved) && issued <= issued'
    ensures NotRevived(completed, origin, history, issued', resolved)
  {
  }

  lemma ResolvedKept<V>(completed: OrderedMap<CacheKey, Entry<V>>, origin: map<CacheKey, Request>, history: seq<Event>,
                        issued: set<Request>, resolved: set<Request>, r: Request, entry: Entry<V>)
    requires NotRevived(completed, origin, history, issued, resolved) && r.key !in completed.at
    requires r in issued && IsCurrent(history, r)
    ensures NotRevived(Trimmed(completed.Put(r.key, entry), MAX_COMPLETED), origin[r.key := r], history, issued,
                       resolved + {r})
  {
    TrimmedPut(completed, r.key, entry, MAX_COMPLETED);
  }

  class SqlCompletionCache<V> {
    var generations: map<CacheKey, nat>
    var keys: seq<CacheKey>
    var completed: OrderedMap<CacheKey, Entry<V>>
    var inFlight: map<CacheKey, Request>
    ghost var history: seq<Event>
    ghost var issued: set<Request>
    /** Requests whose load has answered, and those that are over altogether. */
    ghost var resolved: set<Request>
    ghost var settled: set<Request>
    /** The request whose load produced each kept entry. */
    ghost var origin: map<CacheKey, Request>

    ghost predicate Current(r: Request)
      reads this`history
    {
      IsCurrent(history, r)
    }

    ghost predicate Valid()
      reads this
    {
      && Generational(generations, keys, history, issued)
      && Flying(inFlight, history, issued, settled)
      && NotRevived(completed, origin, history, issued, resolved)
      && (forall k | k in completed.at && k in inFlight :: origin[k] == inFlight[k])
      && settled <= issued
    }

    constructor ()
      ensures Valid() && history == [] && completed == Empty()
    {
      generations, keys, completed, inFlight := map[], [], Empty(), map[];
      history, issued, resolved, settled, origin := [], {}, {}, {}, map[];
    }

    /** Reads a kept entry and makes it the youngest; an expired one is dropped, never answered. */
    method ReadCompleted(key: CacheKey, now: int) returns (found: Option<V>)
      requires Valid()
      modifies this`completed
      ensures Valid()
      ensures found.Present? <==> key in old(completed).at && now < old(completed).at[key].expiresAt
      ensures found.Present? ==>
                && found.value == old(completed).at[key].index
                && completed == old(completed).Renew(key, old(completed).at[key])
                && key in origin && Current(origin[key])
      ensures found.None? ==>
                completed == if key in old(completed).at then old(completed).Remove(key) else old(completed)
    {
      hide Without, Distinct;
      if key !in completed.at { return None; }
      var entry := completed.at[key];
      if now >= entry.expiresAt {
        completed := completed.Remove(key);
        return None;
      }
      RenewKeeps(completed, key);
      completed := completed.Renew(key, entry);
      return Present(entry.index);
    }

    method Peek(key: CacheKey, now: int) returns (found: Option<V>)
      requires Valid()
      modifies this`completed
      ensures Valid()
      ensures found.Present? <==> key in old(completed).at && now < old(completed).at[key].expiresAt
      ensures found.Present? ==> found.value == old(completed).at[key].index && key in origin && Current(origin[key])
    {
      found := ReadCompleted(key, now);
    }

    /** Answers from what is kept, joins the load in flight, or starts one. */
    method Get(key: CacheKey, now: int) returns (answer: Answer<V>)
      requires Valid()
      modifies this`generations, this`keys, this`completed, this`inFlight, this`issued
      ensures Valid()
      ensures answer.Cached? <==> key in old(completed).at && now < old(completed).at[key].expiresAt
      ensures answer.Cached? ==> answer.index == old(completed).at[key].index && key in origin && Current(origin[key])
      ensures answer.Wait? ==> answer.request.key == key && answer.request in issued && Current(answer.request)
      ensures answer.Wait? ==> answer.request !in settled && key in inFlight && inFlight[key] == answer.request
      ensures answer.Wait? && key in old(inFlight) ==> answer.request == old(inFlight)[key]
      ensures answer.Wait? && key !in old(inFlight) ==> fresh(answer.request) && answer.request.started == |history|
    {
      hide CurrentSince, Without, Distinct;
      var found := ReadCompleted(key, now);
      if found.Present? { return Cached(found.value); }
      assert key !in completed.at;
      hide NotRevived, OrderedMap.Remove;
      if key in inFlight { return Wait(inFlight[key]); }
      var generation := if key in generations then generations[key] else 0;
      var request := new Request(key, generation, |history|);
      AskedOnce(generations, keys, inFlight, history, issued, settled, request);
      KeptWithMore(completed, origin, history, issued, issued + {request}, resolved);
      hide Generational;
      if key !in keys { keys := keys + [key]; }
      generations := generations[key := generation];
      inFlight := inFlight[key := request];
      issued := issued + {request};
      return Wait(request);
    }

    /** The load of a request answers: its result is kept exactly when nothing has affected its key meanwhile. */
    method Resolve(r: Request, index: V, now: int)
      requires Valid() && r in issued && r !in resolved && r !in settled
      modifies this`completed, this`resolved, this`origin
      ensures Valid()
      ensures completed == if Current(r) then Trimmed(old(completed).Put(r.key, Entry(index, now + TTL)), MAX_COMPLETED)
                           else old(completed)
      ensures Current(r) ==>
                r.key in completed.at && completed.at[r.key] == Entry(index, now + TTL) && origin[r.key] == r
    {
      hide Trimmed, Without, Distinct, CurrentSince;
      resolved := resolved + {r};
      if r.key in generations && generations[r.key] == r.generation && r.key in inFlight && inFlight[r.key] == r {
        assert r.key !in completed.at;
        TrimmedPut(completed, r.key, Entry(index, now + TTL), MAX_COMPLETED);
        ResolvedKept(completed, origin, history, issued, old(resolved), r, Entry(index, now + TTL));
        Keep(r.key, Entry(index, now + TTL));
        origin := origin[r.key := r];
      }
    }

    method Keep(key: CacheKey, entry: Entry<V>)
      requires completed.Valid()
      modifies this`completed
      ensures completed == Trimmed(old(completed).Put(key, entry), MAX_COMPLETED)
    {
      completed := completed.Put(key, entry);
      while completed.Size() > MAX_COMPLETED
        invariant completed.Valid()
        invariant Trimmed(completed, MAX_COMPLETED) == Trimmed(old(completed).Put(key, entry), MAX_COMPLETED)
        decreases completed.Size()
      {
        completed := completed.Remove(completed.order[0]);
      }
    }

    /** The end of a request, whether its load answered or failed. */
    method Finish(r: Request)
      requires Valid() && r in issued
      modifies this`inFlight, this`settled
      ensures Valid()
      ensures settled == old(settled) + {r}
      ensures inFlight == if r.key in old(inFlight) && old(inFlight)[r.key] == r then old(inFlight) - {r.key}
                          else old(inFlight)
    {
      settled := settled + {r};
      if r.key in inFlight && inFlight[r.key] == r { inFlight := inFlight - {r.key}; }
    }

    /** Goes through all keys ever asked for. */
    method Sweep(e: Event)
      requires completed.Valid() && completed.Size() <= MAX_COMPLETED && forall k :: k in keys <==> k in generations
      requires forall k :: k in completed.at || k in inFlight ==> k in keys
      modifies this`generations, this`completed, this`inFlight
      ensures completed.Valid() && completed.Size() <= MAX_COMPLETED
      ensures forall k :: k in generations <==> k in old(generations)
      ensures forall k | k in generations ::
        if Affects(Catalog, e, k) then generations[k] > old(generations)[k] else generations[k] == old(generations)[k]
      ensures forall k :: k in completed.at <==> k in old(completed).at && !Affects(Catalog, e, k)
      ensures forall k | k in completed.at :: completed.at[k] == old(completed).at[k]
      ensures forall k :: k in inFlight <==> k in old(inFlight) && !Affects(Catalog, e, k)
      ensures forall k | k in inFlight :: inFlight[k] == old(inFlight)[k]
    {
      hide Without, Distinct;
      for i := 0 to |keys|
        invariant completed.Valid() && completed.Size() <= MAX_COMPLETED
        invariant forall k :: k in generations <==> k in old(generations)
        invariant forall k | k in generations ::
          if k in keys[..i] && Affects(Catalog, e, k) then generations[k] > old(generations)[k]
          else generations[k] == old(generations)[k]
        invariant forall k ::
                    k in completed.at <==> k in old(completed).at && !(k in keys[..i] && Affects(Catalog, e, k))
        invariant forall k | k in completed.at :: completed.at[k] == old(completed).at[k]
        invariant forall k :: k in inFlight <==> k in old(inFlight) && !(k in keys[..i] && Affects(Catalog, e, k))
        invariant forall k | k in inFlight :: inFlight[k] == old(inFlight)[k]
      {
        var key := keys[i];
        assert keys[..i + 1] == keys[..i] + [key];
        if key.conn == e.conn && (e.reason == Disconnect || e.database.None? || key.database == e.database.value) {
          assert Affects(Catalog, e, key);
          generations := generations[key := generations[key] + 1];
          completed := completed.Remove(key);
          inFlight := inFlight - {key};
        }
      }
      assert keys[..|keys|] == keys;
    }

    /** Nothing that is kept or in flight for an affected key survives. */
    method Invalidate(e: Event)
      requires Valid()
      modifies this`generations, this`completed, this`inFlight, this`history
      ensures Valid() && history == old(history) + [e]
      ensures forall k :: k in completed.at <==> k in old(completed).at && !Affects(Catalog, e, k)
      ensures forall k :: k in inFlight <==> k in old(inFlight) && !Affects(Catalog, e, k)
    {
      ghost var gens, flights, kept := generations, inFlight, completed;
      Sweep(e);
      GenerationsMoved(gens, generations, keys, history, e, issued);
      FlightsMoved(flights, inFlight, history, e, issued, settled);
      KeptMoved(kept, completed, origin, history, e, issued, resolved);
      history := history + [e];
    }
  }
}
