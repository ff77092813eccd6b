/**
 Concurrent reads of a catalog that schema changes keep invalidating.  What runs between two
 awaits is one step; any number of reads, schema changes and disconnections interleave.
 */
module MetadataReads {
  import opened Invalidation
  import TableBatches

  datatype Option<+T> = None | Just(value: T)

  datatype Resource = Databases | Tables(database: Name) | Structure(database: Name, table: Name)

  /** What of the catalog a resource is about. */
  function ScopeOf(x: Resource): Scope {
    match x
    case Databases => Whole
    case Tables(database) => Scope.Some([database])
    case Structure(database, _) => Scope.Some([database])
  }

  /** An answer: nothing, for a failure, or how many server changes each resource it brings reflects. */
  type Reply = Option<map<Resource, nat>>

  datatype Outcome = Committed | Failed | Discarded | Yielded

  /** `started` and `from` are how much had been invalidated, and changed on the server, when the load began. */
  datatype Phase =
    | Registered
    | Loading(attempt: nat, generation: Generation, started: nat, from: nat)
    | Done(outcome: Outcome)

  datatype Read = Read(conn: Name, scope: Scope, resources: seq<Resource>, lifetime: nat, revision: nat, phase: Phase)

  /** A cached value: the read that wrote it, and how many server changes it reflects. */
  datatype Cell = Cell(reader: nat, seen: nat)

  datatype World = World(
    server: seq<Event>,
    acknowledged: map<nat, nat>,
    history: seq<Event>,
    revisions: map<Name, nat>,
    lifetimes: map<Name, nat>,
    nextLifetime: nat,
    owners: map<(Name, Resource), nat>,
    readers: seq<Read>,
    cells: map<(Name, Resource), Cell>)

  datatype Step =
    | Execute(change: Event)
    | Acknowledge(done: nat)
    | Invalidate(event: Event)
    | Disconnect(conn: Name)
    | RemoveConnection(conn: Name)
    | Reset(conns: seq<Name>)
    | Register(conn: Name, scope: Scope, resources: seq<Resource>)
    | Start(read: nat, relevant: set<Resource>)
    | Respond(read: nat, reply: Reply, relevant: set<Resource>)

  function Initial(): World {
    World([], map[], [], map[], map[], 0, map[], [], map[])
  }

  function RevisionOf(w: World, conn: Name): nat {
    if conn in w.revisions then w.revisions[conn] else 0
  }

  /** The connection a read was made for is still the same one. */
  predicate SameConnection(w: World, id: nat)
    requires id < |w.readers|
  {
    var r := w.readers[id];
    r.conn in w.lifetimes && w.lifetimes[r.conn] == r.lifetime && RevisionOf(w, r.conn) == r.revision
  }

  /** The resource is still this read's to write. */
  predicate Owned(w: World, id: nat, x: Resource)
    requires id < |w.readers|
  {
    var r := w.readers[id];
    x in r.resources && SameConnection(w, id) && (r.conn, x) in w.owners && w.owners[(r.conn, x)] == id
  }

  function OwnedBy(w: World, id: nat, relevant: set<Resource>): (xs: set<Resource>)
    requires id < |w.readers|
    ensures forall x :: x in xs <==> Owned(w, id, x) && x in relevant
  {
    set x | x in w.readers[id].resources && Owned(w, id, x) && x in relevant
  }

  function SetPhase(w: World, id: nat, phase: Phase): World
    requires id < |w.readers|
  {
    w.(readers := w.readers[id := w.readers[id].(phase := phase)])
  }

  /** A load begins: the generation is captured with it. */
  function BeginLoad(w: World, id: nat, attempt: nat): World
    requires id < |w.readers|
  {
    var r := w.readers[id];
    SetPhase(w, id, Loading(attempt, Capture(After(w.history), r.conn, r.scope), |w.history|, |w.server|))
  }

  function Commit(w: World, id: nat, xs: set<Resource>, seen: map<Resource, nat>): World
    requires id < |w.readers| && xs <= seen.Keys
  {
    var keys := set x | x in xs :: (w.readers[id].conn, x);
    var more := map k | k in keys :: Cell(id, seen[k.1]);
    SetPhase(w.(cells := w.cells + more), id, Done(Committed))
  }

  function Discard(w: World, id: nat, xs: set<Resource>): World
    requires id < |w.readers|
  {
    var keys := set x | x in xs :: (w.readers[id].conn, x);
    SetPhase(w.(cells := w.cells - keys), id, Done(Discarded))
  }

  /** A load answers: yield if nothing is owned any more, read once more if the scope moved, else commit. */
  function Answered(w: World, id: nat, reply: Reply, relevant: set<Resource>): World
    requires id < |w.readers| && w.readers[id].phase.Loading?
  {
    var r := w.readers[id];
    var owned := OwnedBy(w, id, relevant);
    if owned == {} then SetPhase(w, id, Done(Yielded))
    else if r.phase.generation != Capture(After(w.history), r.conn, r.scope) then
      if r.phase.attempt == 1 then BeginLoad(w, id, 2) else Discard(w, id, owned)
    else match reply
      case None => SetPhase(w, id, Done(Failed))
      case Just(seen) => Commit(w, id, owned * seen.Keys, seen)
  }

  function Registering(w: World, conn: Name, scope: Scope, resources: seq<Resource>): World {
    var lifetime := if conn in w.lifetimes then w.lifetimes[conn] else w.nextLifetime;
    var keys := set x | x in resources :: (conn, x);
    w.(lifetimes := w.lifetimes[conn := lifetime],
       nextLifetime := if conn in w.lifetimes then w.nextLifetime else w.nextLifetime + 1,
       owners := w.owners + (map k | k in keys :: |w.readers|),
       readers := w.readers + [Read(conn, scope, resources, lifetime, RevisionOf(w, conn), Registered)])
  }

  /** A change that a read watches, and that is about a resource. */
  predicate Concerns(e: Event, r: Read, x: Resource) {
    Intersects(e, r.conn, r.scope) && Intersects(e, r.conn, ScopeOf(x))
  }

  /**
   What an answer may bring for a resource: at least the changes that concern it and were acknowledged before
   the load began, whether it was asked for then or joined a request on its way.
   */
  predicate PossibleFor(w: World, r: Read, x: Resource, seen: nat) {
    && seen <= |w.server|
    && (r.phase.Loading? ==>
          forall i | i in w.acknowledged ::
            w.acknowledged[i] < r.phase.started && i < |w.server| && Concerns(w.server[i], r, x) ==> i < seen)
  }

  predicate Possible(w: World, r: Read, reply: Reply) {
    reply.Just? ==> forall x | x in reply.value :: PossibleFor(w, r, x, reply.value[x])
  }

  function Do(w: World, step: Step): World {
    match step
    case Execute(change) => w.(server := w.server + [change])
    case Acknowledge(i) =>
      if i < |w.server| && i !in w.acknowledged then
        w.(acknowledged := w.acknowledged[i := |w.history|], history := w.history + [w.server[i]])
      else w
    case Invalidate(e) => w.(history := w.history + [e])
    case Disconnect(conn) =>
      w.(history := w.history + [Event(conn, Everything)], revisions := w.revisions[conn := RevisionOf(w, conn) + 1])
    case RemoveConnection(conn) =>
      w.(history := w.history + [Event(conn, Everything)], lifetimes := w.lifetimes - {conn},
         owners := map k | k in w.owners && k.0 != conn :: w.owners[k],
         cells := map k | k in w.cells && k.0 != conn :: w.cells[k])
    case Reset(conns) =>
      w.(history := w.history + seq(|conns|, i requires 0 <= i < |conns| => Event(conns[i], Everything)),
         lifetimes := map[], owners := map[], cells := map[])
    case Register(conn, scope, resources) => Registering(w, conn, scope, resources)
    case Start(id, relevant) =>
      if id < |w.readers| && w.readers[id].phase.Registered? then
        if OwnedBy(w, id, relevant) == {} then SetPhase(w, id, Done(Yielded)) else BeginLoad(w, id, 1)
      else w
    case Respond(id, reply, relevant) =>
      if id < |w.readers| && w.readers[id].phase.Loading? && Possible(w, w.readers[id], reply)
      then Answered(w, id, reply, relevant) else w
  }

  function Run(steps: seq<Step>): World {
    if steps == [] then Initial() else Do(Run(steps[..|steps| - 1]), steps[|steps| - 1])
  }

  // ---- what holds in every reachable world ----

  /** Each acknowledged change of the server is in the history of invalidations. */
  ghost predicate AcknowledgedIn(w: World) {
    forall i | i in w.acknowledged ::
      i < |w.server| && w.acknowledged[i] < |w.history| && w.history[w.acknowledged[i]] == w.server[i]
  }

  /** A load knows the generation it began in, and began after the changes acknowledged by then. */
  ghost predicate LoadInOrder(w: World, r: Read) {
    r.phase.Loading? ==>
      && 1 <= r.phase.attempt <= 2
      && r.phase.started <= |w.history| && r.phase.from <= |w.server|
      && r.phase.generation == Capture(After(w.history[..r.phase.started]), r.conn, r.scope)
      && forall i | i in w.acknowledged :: w.acknowledged[i] < r.phase.started ==> i < r.phase.from
  }

  /** The owner of a resource is the last read registered for it on this connection. */
  ghost predicate OwnersLatest(w: World) {
    forall k | k in w.owners ::
      && w.owners[k] < |w.readers| && w.readers[w.owners[k]].conn == k.0 && k.1 in w.readers[w.owners[k]].resources
      && forall id | w.owners[k] < id < |w.readers| :: !(w.readers[id].conn == k.0 && k.1 in w.readers[id].resources)
  }

  /** While a connection lives, what its reads registered for has an owner, itself or a later one. */
  ghost predicate OwnersKept(w: World) {
    forall id | 0 <= id < |w.readers| ::
      var r := w.readers[id];
      r.conn in w.lifetimes && w.lifetimes[r.conn] == r.lifetime ==>
        forall x | x in r.resources :: (r.conn, x) in w.owners && id <= w.owners[(r.conn, x)]
  }

  ghost predicate LifetimesOld(w: World) {
    && (forall c | c in w.lifetimes :: w.lifetimes[c] < w.nextLifetime)
    && (forall id | 0 <= id < |w.readers| :: w.readers[id].lifetime < w.nextLifetime
                                           && w.readers[id].revision <= RevisionOf(w, w.readers[id].conn))
  }

  ghost predicate Good(w: World) {
    && AcknowledgedIn(w) && OwnersLatest(w) && OwnersKept(w) && LifetimesOld(w)
    && forall id | 0 <= id < |w.readers| :: LoadInOrder(w, w.readers[id])
  }

  /** A step that only adds to the history keeps every load in order. */
  lemma HistoryGrows(w: World, w': World, more: seq<Event>, r: Read)
    requires w'.history == w.history + more && w'.server == w.server && LoadInOrder(w, r)
    requires forall i | i in w'.acknowledged ::
               (i in w.acknowledged && w'.acknowledged[i] == w.acknowledged[i]) || w'.acknowledged[i] >= |w.history|
    ensures LoadInOrder(w', r)
  {
    if r.phase.Loading? {
      assert w'.history[..r.phase.started] == w.history[..r.phase.started];
    }
  }

  lemma AcknowledgedGrows(w: World, w': World, more: seq<Event>)
    requires AcknowledgedIn(w) && w'.history == w.history + more && w'.server == w.server
             && w'.acknowledged == w.acknowledged
    ensures AcknowledgedIn(w')
  {
  }

  /** Invalidations, with or without the end of lifetimes and ownerships. */
  lemma GoodInvalidation(w: World, w': World, more: seq<Event>)
    requires Good(w) && w'.history == w.history + more && w'.server == w.server && w'.acknowledged == w.acknowledged
    requires w'.readers == w.readers && w'.nextLifetime == w.nextLifetime
    requires forall k | k in w'.owners :: k in w.owners && w'.owners[k] == w.owners[k]
    requires forall c | c in w'.lifetimes :: c in w.lifetimes && w'.lifetimes[c] == w.lifetimes[c]
    requires forall k | k in w.owners :: k in w'.owners || k.0 !in w'.lifetimes
    requires forall c :: RevisionOf(w, c) <= RevisionOf(w', c)
    ensures Good(w')
  {
    AcknowledgedGrows(w, w', more);
    forall id | 0 <= id < |w.readers| ensures LoadInOrder(w', w.readers[id]) {
      HistoryGrows(w, w', more, w.readers[id]);
    }
  }

  lemma GoodAcknowledge(w: World, i: nat)
    requires Good(w) && i < |w.server| && i !in w.acknowledged
    ensures Good(Do(w, Acknowledge(i)))
  {
    var w' := Do(w, Acknowledge(i));
    forall id | 0 <= id < |w.readers| ensures LoadInOrder(w', w.readers[id]) {
      HistoryGrows(w, w', [w.server[i]], w.readers[id]);
    }
  }

  lemma GoodExecute(w: World, change: Event)
    requires Good(w)
    ensures Good(Do(w, Execute(change)))
  {
    var w' := Do(w, Execute(change));
    forall id | 0 <= id < |w.readers| ensures LoadInOrder(w', w.readers[id]) {
      assert LoadInOrder(w, w.readers[id]);
    }
  }

  /** A read moves to a phase that is in order. */
  lemma GoodPhase(w: World, w': World, id: nat, phase: Phase)
    requires Good(w) && id < |w.readers| && LoadInOrder(w, w.readers[id].(phase := phase))
    requires w' == SetPhase(w, id, phase).(cells := w'.cells)
    ensures Good(w')
  {
    assert forall j | 0 <= j < |w.readers| ::
      w'.readers[j] == if j == id then w.readers[j].(phase := phase) else w.readers[j];
    forall j | 0 <= j < |w'.readers| ensures LoadInOrder(w', w'.readers[j]) {
      assert LoadInOrder(w, w.readers[j]);
    }
  }

  lemma GoodLoad(w: World, id: nat, attempt: nat)
    requires Good(w) && id < |w.readers| && 1 <= attempt <= 2
    ensures Good(BeginLoad(w, id, attempt))
  {
    var r := w.readers[id];
    assert w.history[..|w.history|] == w.history;
    GoodPhase(w, BeginLoad(w, id, attempt), id, BeginLoad(w, id, attempt).readers[id].phase);
  }

  /** Who owns what after a registration: the newcomer, where it asked, and the old owners elsewhere. */
  lemma RegisteredOwners(w: World, conn: Name, scope: Scope, resources: seq<Resource>)
    ensures var w' := Registering(w, conn, scope, resources);
            && (forall k :: k in w'.owners <==> k in w.owners || (k.0 == conn && k.1 in resources))
            && (forall k | k in w'.owners ::
                  w'.owners[k] == if k.0 == conn && k.1 in resources then |w.readers| else w.owners[k])
            && (forall j | 0 <= j < |w.readers| :: w'.readers[j] == w.readers[j])
            && |w'.readers| == |w.readers| + 1
            && var r := w'.readers[|w.readers|];
               r.conn == conn && r.resources == resources && r.phase == Registered && r.scope == scope
               && conn in w'.lifetimes && r.lifetime == w'.lifetimes[conn] && r.revision == RevisionOf(w, conn)
  {
  }

  lemma RegisterLatest(w: World, w': World, conn: Name, scope: Scope, resources: seq<Resource>)
    requires OwnersLatest(w) && w' == Registering(w, conn, scope, resources)
    ensures OwnersLatest(w')
  {
    RegisteredOwners(w, conn, scope, resources);
    hide Registering;
    var n := |w.readers|;
    forall k | k in w'.owners
      ensures w'.owners[k] < |w'.readers| && w'.readers[w'.owners[k]].conn == k.0
              && k.1 in w'.readers[w'.owners[k]].resources
      ensures forall id | w'.owners[k] < id < |w'.readers| ::
                !(w'.readers[id].conn == k.0 && k.1 in w'.readers[id].resources)
    {
      if !(k.0 == conn && k.1 in resources) {
        assert k in w.owners;
        forall id | w'.owners[k] < id < |w'.readers|
          ensures !(w'.readers[id].conn == k.0 && k.1 in w'.readers[id].resources)
        { if id < n { assert w'.readers[id] == w.readers[id]; } }
      }
    }
  }

  lemma RegisterKept(w: World, w': World, conn: Name, scope: Scope, resources: seq<Resource>)
    requires OwnersKept(w) && LifetimesOld(w) && w' == Registering(w, conn, scope, resources)
    ensures OwnersKept(w') && LifetimesOld(w')
  {
    RegisteredOwners(w, conn, scope, resources);
    var n := |w.readers|;
    forall id | 0 <= id < |w'.readers| && w'.readers[id].conn in w'.lifetimes
                && w'.lifetimes[w'.readers[id].conn] == w'.readers[id].lifetime
      ensures forall x | x in w'.readers[id].resources ::
                (w'.readers[id].conn, x) in w'.owners && id <= w'.owners[(w'.readers[id].conn, x)]
    {
      if id < n { assert w'.readers[id] == w.readers[id]; }
    }
  }

  lemma GoodRegister(w: World, conn: Name, scope: Scope, resources: seq<Resource>)
    requires Good(w)
    ensures Good(Registering(w, conn, scope, resources))
  {
    var w' := Registering(w, conn, scope, resources);
    RegisterLatest(w, w', conn, scope, resources);
    RegisterKept(w, w', conn, scope, resources);
    RegisteredOwners(w, conn, scope, resources);
    hide OwnersKept, OwnersLatest, LifetimesOld;
    forall j | 0 <= j < |w'.readers| ensures LoadInOrder(w', w'.readers[j]) {
      if j < |w.readers| { assert LoadInOrder(w, w.readers[j]); }
    }
  }

  lemma GoodAnswer(w: World, id: nat, reply: Reply, relevant: set<Resource>)
    requires Good(w) && id < |w.readers| && w.readers[id].phase.Loading?
    ensures Good(Answered(w, id, reply, relevant))
  {
    hide BeginLoad, OwnedBy;
    var w' := Answered(w, id, reply, relevant);
    var r := w.readers[id];
    if OwnedBy(w, id, relevant) != {} && r.phase.attempt == 1
       && r.phase.generation != Capture(After(w.history), r.conn, r.scope) {
      GoodLoad(w, id, 2);
    } else {
      GoodPhase(w, w', id, w'.readers[id].phase);
    }
  }

  lemma GoodStep(w: World, step: Step)
    requires Good(w)
    ensures Good(Do(w, step))
  {
    hide Good, Answered, Registering, BeginLoad, OwnedBy, After, Capture;
    var w' := Do(w, step);
    match step
    case Execute(change) => GoodExecute(w, change);
    case Acknowledge(i) => if i < |w.server| && i !in w.acknowledged { GoodAcknowledge(w, i); }
    case Invalidate(e) => GoodInvalidation(w, w', [e]);
    case Disconnect(conn) => GoodInvalidation(w, w', [Event(conn, Everything)]);
    case RemoveConnection(conn) => GoodInvalidation(w, w', [Event(conn, Everything)]);
    case Reset(conns) => GoodInvalidation(w, w', w'.history[|w.history|..]);
    case Register(conn, scope, resources) => GoodRegister(w, conn, scope, resources);
    case Start(id, relevant) =>
      if id < |w.readers| && w.readers[id].phase.Registered? {
        if OwnedBy(w, id, relevant) == {} { GoodPhase(w, w', id, Done(Yielded)); } else { GoodLoad(w, id, 1); }
      }
    case Respond(id, reply, relevant) =>
      if id < |w.readers| && w.readers[id].phase.Loading? { GoodAnswer(w, id, reply, relevant); }
  }

  lemma {:induction false} Reachable(steps: seq<Step>)
    ensures Good(Run(steps))
  {
    if steps != [] {
      Reachable(steps[..|steps| - 1]);
      GoodStep(Run(steps[..|steps| - 1]), steps[|steps| - 1]);
    }
  }

  // ---- no stale commit ----

  /**
   Every change acknowledged so far that concerns a resource of a read is among the first `seen` ones of the server.
   */
  ghost predicate Reflects(w: World, r: Read, x: Resource, seen: nat) {
    forall i | i in w.acknowledged :: i < |w.server| && Concerns(w.server[i], r, x) ==> i < seen
  }

  /** A load that ends in the generation it began in began after everything its scope was invalidated for. */
  lemma CurrentLoadIsFresh(w: World, id: nat, x: Resource, seen: nat)
    requires Good(w) && id < |w.readers| && w.readers[id].phase.Loading? && PossibleFor(w, w.readers[id], x, seen)
    requires w.readers[id].phase.generation == Capture(After(w.history), w.readers[id].conn, w.readers[id].scope)
    ensures Untouched(w.history[w.readers[id].phase.started..], w.readers[id].conn, w.readers[id].scope)
    ensures Reflects(w, w.readers[id], x, seen)
  {
    var r := w.readers[id];
    var started := r.phase.started;
    assert LoadInOrder(w, r);
    assert w.history[..started] + w.history[started..] == w.history;
    CaptureExact(w.history[..started], w.history[started..], r.conn, r.scope);
    forall j | started <= j < |w.history| ensures !Intersects(w.history[j], r.conn, r.scope) {
      assert w.history[j] == w.history[started..][j - started];
    }
  }

  /** No later read was registered for the resource. */
  predicate LatestFor(w: World, id: nat, x: Resource)
    requires id < |w.readers|
  {
    forall j | id < j < |w.readers| :: !(w.readers[j].conn == w.readers[id].conn && x in w.readers[j].resources)
  }

  /**
   Whatever a step of a reachable world puts into the cache was written by the last read
   registered for it on a connection that still lives, and reflects every acknowledged change that concerns it.
   */
  lemma NoStaleCommit(steps: seq<Step>, step: Step, k: (Name, Resource))
    requires var (w, w') := (Run(steps), Do(Run(steps), step));
             k in w'.cells && (k !in w.cells || w'.cells[k] != w.cells[k])
    ensures var (w, w') := (Run(steps), Do(Run(steps), step));
            && step.Respond? && step.read < |w.readers| && step.reply.Just? && k.1 in step.reply.value
            && w'.cells[k] == Cell(step.read, step.reply.value[k.1])
            && w.readers[step.read].conn == k.0 && k.1 in step.relevant
            && Owned(w, step.read, k.1) && LatestFor(w, step.read, k.1)
            && Reflects(w, w.readers[step.read], k.1, step.reply.value[k.1])
  {
    var w := Run(steps);
    Reachable(steps);
    hide Run;
    WritesAreCommits(w, step, k);
    CurrentLoadIsFresh(w, step.read, k.1, step.reply.value[k.1]);
    assert OwnersLatest(w);
  }

  lemma WritesAreCommits(w: World, step: Step, k: (Name, Resource))
    requires var w' := Do(w, step); k in w'.cells && (k !in w.cells || w'.cells[k] != w.cells[k])
    ensures step.Respond? && step.read < |w.readers| && w.readers[step.read].phase.Loading?
    ensures step.reply.Just? && k.1 in step.reply.value
            && PossibleFor(w, w.readers[step.read], k.1, step.reply.value[k.1])
    ensures w.readers[step.read].conn == k.0 && Owned(w, step.read, k.1) && k.1 in step.relevant
    ensures var r := w.readers[step.read];
            && r.phase.generation == Capture(After(w.history), r.conn, r.scope)
            && Do(w, step).cells[k] == Cell(step.read, step.reply.value[k.1])
  {
    hide After, Capture, Answered, BeginLoad, Registering, OwnedBy, Owned;
    match step
    case Register(conn, scope, resources) => RegisteredLifetimes(w, conn, scope, resources);
    case Start(id, relevant) => if id < |w.readers| { LoadStays(w, id, 1); }
    case Respond(id, reply, relevant) =>
      if id < |w.readers| && w.readers[id].phase.Loading? { AnswerWrites(w, id, reply, relevant, k); }
    case _ =>
  }

  lemma AnswerWrites(w: World, id: nat, reply: Reply, relevant: set<Resource>,
                     k: (Name, Resource))
    requires id < |w.readers| && w.readers[id].phase.Loading?
    requires var w' := Answered(w, id, reply, relevant);
             k in w'.cells && (k !in w.cells || w'.cells[k] != w.cells[k])
    ensures w.readers[id].conn == k.0 && Owned(w, id, k.1) && k.1 in relevant && reply.Just? && k.1 in reply.value
    ensures var r := w.readers[id]; r.phase.generation == Capture(After(w.history), r.conn, r.scope)
    ensures Answered(w, id, reply, relevant).cells[k] == Cell(id, reply.value[k.1])
  {
    hide After, Capture, Owned;
    var owned := OwnedBy(w, id, relevant);
    LoadStays(w, id, 2);
    DiscardLess(w, id, owned, k);
    if reply.Just? { CommitWrites(w, id, owned * reply.value.Keys, reply.value, k); }
    hide Commit, Discard, BeginLoad;
  }

  lemma CommitWrites(w: World, id: nat, xs: set<Resource>, seen: map<Resource, nat>, k: (Name, Resource))
    requires id < |w.readers| && xs <= seen.Keys
    ensures var w' := Commit(w, id, xs, seen);
            k in w'.cells && (k !in w.cells || w'.cells[k] != w.cells[k]) ==>
              k.0 == w.readers[id].conn && k.1 in xs && w'.cells[k] == Cell(id, seen[k.1])
  {
  }

  lemma DiscardLess(w: World, id: nat, xs: set<Resource>, k: (Name, Resource))
    requires id < |w.readers|
    ensures var w' := Discard(w, id, xs); k in w'.cells ==> k in w.cells && w'.cells[k] == w.cells[k]
  {
  }

  // ---- which answers are possible ----

  /** An answer from the time of the load. */
  lemma FreshReply(w: World, id: nat, x: Resource, seen: nat)
    requires Good(w) && id < |w.readers| && w.readers[id].phase.Loading?
             && w.readers[id].phase.from <= seen <= |w.server|
    ensures PossibleFor(w, w.readers[id], x, seen)
  {
    assert LoadInOrder(w, w.readers[id]);
  }

  /** A run goes on: history and server only grow, and what is acknowledged later is so at a later place. */
  ghost predicate Extends(w: World, w': World) {
    && w.history <= w'.history && w.server <= w'.server
    && forall i | i in w'.acknowledged ::
         w'.acknowledged[i] < |w.history| ==> i in w.acknowledged && w.acknowledged[i] == w'.acknowledged[i]
  }

  lemma AnswerExtends(w: World, id: nat, reply: Reply, relevant: set<Resource>)
    requires id < |w.readers| && w.readers[id].phase.Loading?
    ensures var w' := Answered(w, id, reply, relevant);
            w'.history == w.history && w'.server == w.server && w'.acknowledged == w.acknowledged
  {
    hide After, Capture, OwnedBy;
  }

  lemma StepExtends(w: World, step: Step)
    requires Good(w)
    ensures Extends(w, Do(w, step))
  {
    assert AcknowledgedIn(w);
    hide After, Capture, OwnedBy, Good, Answered, Possible;
    if step.Respond? && step.read < |w.readers| && w.readers[step.read].phase.Loading? {
      AnswerExtends(w, step.read, step.reply, step.relevant);
    }
  }

  lemma {:induction false} RunExtends(steps: seq<Step>, more: seq<Step>)
    ensures Extends(Run(steps), Run(steps + more))
  {
    if more == [] {
      assert steps + more == steps;
    } else {
      var before, last := steps + more[..|more| - 1], more[|more| - 1];
      RunExtends(steps, more[..|more| - 1]);
      Reachable(before);
      RunOne(before, last);
      hide Good, Do, Run;
      StepExtends(Run(before), last);
      assert steps + more == before + [last];
    }
  }

  /**
   An answer of a request for table lists that was sent earlier in the run, by whomever, and that the load
   joined while it was current.
   */
  lemma JoinedReply(steps: seq<Step>, more: seq<Step>, w: World, id: nat, q: TableBatches.Request, joined: nat,
                    database: Name, seen: nat)
    requires w == Run(steps + more) && id < |w.readers| && w.readers[id].phase.Loading?
    requires q.conn == w.readers[id].conn && database in q.databases && q.issued == |Run(steps).history|
    requires w.readers[id].phase.started <= joined <= |w.history| && TableBatches.Current(w.history[..joined], q)
    requires |Run(steps).server| <= seen <= |w.server|
    ensures PossibleFor(w, w.readers[id], Tables(database), seen)
  {
    Reachable(steps);
    Reachable(steps + more);
    RunExtends(steps, more);
    hide Run, TableBatches.Current;
    SentBefore(Run(steps), w);
    JoinedCovers(w, w.readers[id], q, |Run(steps).server|, joined, database, seen);
  }

  /** What was acknowledged before a request was sent was on the server by then. */
  lemma SentBefore(w: World, w': World)
    requires Good(w) && Good(w') && Extends(w, w')
    ensures AcknowledgedIn(w') && forall i | i in w'.acknowledged :: w'.acknowledged[i] < |w.history| ==> i < |w.server|
  {
    hide OwnersLatest, OwnersKept, LifetimesOld, LoadInOrder;
  }

  lemma JoinedCovers(w: World, r: Read, q: TableBatches.Request, sent: nat, joined: nat, database: Name, seen: nat)
    requires AcknowledgedIn(w) && r.phase.Loading? && q.conn == r.conn && database in q.databases
             && sent <= seen <= |w.server|
    requires r.phase.started <= joined <= |w.history| && TableBatches.Current(w.history[..joined], q)
    requires forall i | i in w.acknowledged :: w.acknowledged[i] < q.issued ==> i < sent
    ensures PossibleFor(w, r, Tables(database), seen)
  {
    forall p | q.issued <= p < joined ensures !Intersects(w.history[p], q.conn, Scope.Some(q.databases)) {
      assert w.history[..joined][q.issued..][p - q.issued] == w.history[p];
    }
  }

  // ---- ownership ----

  predicate SameRead(a: Read, b: Read) {
    a.(phase := b.phase) == b
  }

  /** Reads keep their identity, revisions do not go back, new lifetimes and owners are new. */
  ghost predicate Onward(w: World, w': World) {
    && |w.readers| <= |w'.readers|
    && (forall j | 0 <= j < |w.readers| :: SameRead(w.readers[j], w'.readers[j]))
    && (forall c :: RevisionOf(w, c) <= RevisionOf(w', c))
    && (forall c | c in w'.lifetimes ::
          (c in w.lifetimes && w'.lifetimes[c] == w.lifetimes[c]) || w'.lifetimes[c] >= w.nextLifetime)
    && (forall k | k in w'.owners :: (k in w.owners && w'.owners[k] == w.owners[k]) || w'.owners[k] >= |w.readers|)
  }

  lemma PhaseOnward(w: World, w': World, id: nat, phase: Phase)
    requires id < |w.readers| && w' == SetPhase(w, id, phase).(cells := w'.cells)
    ensures Onward(w, w')
  {
  }

  lemma AnswerOnward(w: World, id: nat, reply: Reply, relevant: set<Resource>)
    requires id < |w.readers| && w.readers[id].phase.Loading?
    ensures Onward(w, Answered(w, id, reply, relevant))
  {
    hide After, Capture, OwnedBy, Onward;
    var w' := Answered(w, id, reply, relevant);
    PhaseOnward(w, w', id, w'.readers[id].phase);
  }

  lemma RegisterOnward(w: World, conn: Name, scope: Scope, resources: seq<Resource>)
    ensures Onward(w, Registering(w, conn, scope, resources))
  {
    RegisteredOwners(w, conn, scope, resources);
  }

  lemma StepOnward(w: World, step: Step)
    ensures Onward(w, Do(w, step))
  {
    hide After, Capture, OwnedBy, Registering, Answered;
    var w' := Do(w, step);
    match step
    case Register(conn, scope, resources) =>
      hide Onward;
      RegisterOnward(w, conn, scope, resources);
    case Start(id, relevant) =>
      if id < |w.readers| {
        PhaseOnward(w, BeginLoad(w, id, 1), id, BeginLoad(w, id, 1).readers[id].phase);
        PhaseOnward(w, SetPhase(w, id, Done(Yielded)), id, Done(Yielded));
      }
    case Respond(id, reply, relevant) =>
      if id < |w.readers| && w.readers[id].phase.Loading? { AnswerOnward(w, id, reply, relevant); }
    case _ =>
  }

  /** What a read has lost it never regains. */
  lemma LostForGood(w: World, step: Step, id: nat, x: Resource)
    requires Good(w) && id < |w.readers| && !Owned(w, id, x)
    ensures id < |Do(w, step).readers| && !Owned(Do(w, step), id, x)
  {
    StepOnward(w, step);
    hide Do, AcknowledgedIn, OwnersLatest, OwnersKept, LoadInOrder;
    assert SameRead(w.readers[id], Do(w, step).readers[id]);
    assert w.readers[id].lifetime < w.nextLifetime;
    assert w.readers[id].revision <= RevisionOf(w, w.readers[id].conn);
  }

  lemma RunOne(steps: seq<Step>, step: Step)
    ensures Run(steps + [step]) == Do(Run(steps), step)
  {
    assert (steps + [step])[..|steps|] == steps;
  }

  lemma {:induction false} LostForever(steps: seq<Step>, more: seq<Step>, id: nat, x: Resource)
    requires id < |Run(steps).readers| && !Owned(Run(steps), id, x)
    ensures id < |Run(steps + more).readers| && !Owned(Run(steps + more), id, x)
  {
    if more == [] {
      assert steps + more == steps;
    } else {
      var before, last := steps + more[..|more| - 1], more[|more| - 1];
      LostForever(steps, more[..|more| - 1], id, x);
      Reachable(before);
      RunOne(before, last);
      hide Good, Do, Owned, Run;
      LostForGood(Run(before), last, id, x);
      assert steps + more == before + [last];
    }
  }

  /** A connection stops being the same one only by a disconnection, a removal or a reset. */
  lemma ConnectionLost(w: World, step: Step, id: nat)
    requires id < |w.readers| && SameConnection(w, id)
    requires id < |Do(w, step).readers| && !SameConnection(Do(w, step), id)
    ensures step.Reset? || ((step.Disconnect? || step.RemoveConnection?) && step.conn == w.readers[id].conn)
  {
    hide After, Capture, OwnedBy, Owned, Answered, BeginLoad, Registering, Onward;
    StepSameRead(w, step, id);
    match step
    case Register(conn, scope, resources) => RegisteredLifetimes(w, conn, scope, resources);
    case Respond(other, reply, relevant) =>
      if other < |w.readers| && w.readers[other].phase.Loading? { AnswerStays(w, other, reply, relevant); }
    case Start(other, relevant) => if other < |w.readers| { LoadStays(w, other, 1); }
    case _ =>
  }

  lemma StepSameRead(w: World, step: Step, id: nat)
    requires id < |w.readers|
    ensures id < |Do(w, step).readers| && SameRead(w.readers[id], Do(w, step).readers[id])
  {
    hide Do;
    StepOnward(w, step);
  }

  lemma RegisteredLifetimes(w: World, conn: Name, scope: Scope, resources: seq<Resource>)
    ensures var w' := Registering(w, conn, scope, resources);
            w'.revisions == w.revisions && w'.cells == w.cells
            && forall c | c in w.lifetimes :: c in w'.lifetimes && w'.lifetimes[c] == w.lifetimes[c]
  {
  }

  lemma LoadStays(w: World, id: nat, attempt: nat)
    requires id < |w.readers|
    ensures var w' := BeginLoad(w, id, attempt);
            w'.revisions == w.revisions && w'.lifetimes == w.lifetimes && w'.owners == w.owners && w'.cells == w.cells
  {
  }

  lemma AnswerStays(w: World, id: nat, reply: Reply, relevant: set<Resource>)
    requires id < |w.readers| && w.readers[id].phase.Loading?
    ensures var w' := Answered(w, id, reply, relevant);
            w'.revisions == w.revisions && w'.lifetimes == w.lifetimes && w'.owners == w.owners
  {
    hide After, Capture, OwnedBy;
  }

  ghost predicate TakenOver(w: World, id: nat, x: Resource)
    requires id < |w.readers|
  {
    exists j :: id < j < |w.readers| && w.readers[j].conn == w.readers[id].conn && x in w.readers[j].resources
  }

  /**
   A read that returns silently, all its resources relevant, has lost each to a later read or to the end of its
   connection.
   */
  lemma SilentReturn(steps: seq<Step>, step: Step, w: World, id: nat, x: Resource)
    requires w == Run(steps) && id < |w.readers| && !w.readers[id].phase.Done?
    requires id < |Do(w, step).readers| && Do(w, step).readers[id].phase == Done(Yielded)
    requires step.Start? || step.Respond? ==> forall y | y in w.readers[id].resources :: y in step.relevant
    requires x in w.readers[id].resources
    ensures !SameConnection(w, id) || TakenOver(w, id, x)
  {
    Reachable(steps);
    hide Run, Do, After, Capture;
    YieldedOwnsNothing(w, step, id);
    assert !Owned(w, id, x);
    if SameConnection(w, id) {
      var k := (w.readers[id].conn, x);
      assert k in w.owners && id < w.owners[k] < |w.readers|;
      assert w.readers[w.owners[k]].conn == k.0;
    }
  }

  /** Only a read's own steps move its phase. */
  lemma PhaseMoves(w: World, step: Step, id: nat)
    requires id < |w.readers| && id < |Do(w, step).readers| && Do(w, step).readers[id].phase != w.readers[id].phase
    ensures || (step.Start? && step.read == id && w.readers[id].phase.Registered?)
            || (step.Respond? && step.read == id && w.readers[id].phase.Loading?
                && Possible(w, w.readers[id], step.reply))
  {
    hide After, Capture, OwnedBy, Answered, BeginLoad, Registering;
    match step
    case Register(conn, scope, resources) => RegisteredOwners(w, conn, scope, resources);
    case Respond(other, reply, relevant) =>
      if other != id && other < |w.readers| && w.readers[other].phase.Loading? {
        AnswerTouches(w, other, reply, relevant, id);
      }
    case Start(other, relevant) => if other != id && other < |w.readers| { LoadTouches(w, other, 1, id); }
    case _ =>
  }

  lemma LoadTouches(w: World, id: nat, attempt: nat, other: nat)
    requires id < |w.readers| && other < |w.readers| && other != id
    ensures BeginLoad(w, id, attempt).readers[other] == w.readers[other]
  {
  }

  lemma AnswerTouches(w: World, id: nat, reply: Reply, relevant: set<Resource>, other: nat)
    requires id < |w.readers| && w.readers[id].phase.Loading? && other < |w.readers| && other != id
    ensures Answered(w, id, reply, relevant).readers[other] == w.readers[other]
  {
    hide After, Capture, OwnedBy;
  }

  lemma YieldedOwnsNothing(w: World, step: Step, id: nat)
    requires id < |w.readers| && !w.readers[id].phase.Done?
    requires id < |Do(w, step).readers| && Do(w, step).readers[id].phase == Done(Yielded)
    ensures (step.Start? || step.Respond?) && step.read == id && OwnedBy(w, id, step.relevant) == {}
  {
    PhaseMoves(w, step, id);
    hide After, Capture, OwnedBy, Owned, Answered, BeginLoad, Registering;
    if step.Start? { LoadLoads(w, id, 1); } else { AnswerYields(w, id, step.reply, step.relevant); }
  }

  lemma LoadLoads(w: World, id: nat, attempt: nat)
    requires id < |w.readers|
    ensures |BeginLoad(w, id, attempt).readers| == |w.readers| && BeginLoad(w, id, attempt).readers[id].phase.Loading?
  {
  }

  lemma AnswerYields(w: World, id: nat, reply: Reply, relevant: set<Resource>)
    requires id < |w.readers| && w.readers[id].phase.Loading?
    ensures var w' := Answered(w, id, reply, relevant);
            |w'.readers| == |w.readers| && (w'.readers[id].phase == Done(Yielded) ==> OwnedBy(w, id, relevant) == {})
  {
    hide After, Capture, OwnedBy;
  }

  // ---- progress ----

  function Rank(phase: Phase): nat {
    match phase
    case Registered => 3
    case Loading(attempt, _, _, _) => if attempt == 1 then 2 else 1
    case Done(_) => 0
  }

  /** A read starts at most two loads and, once done, stays as it ended. */
  lemma PhaseDescends(w: World, step: Step, id: nat)
    requires Good(w) && id < |w.readers|
    ensures id < |Do(w, step).readers|
    ensures var (a, b) := (w.readers[id].phase, Do(w, step).readers[id].phase); b == a || Rank(b) < Rank(a)
  {
    hide After, Capture, OwnedBy, AcknowledgedIn, OwnersLatest, OwnersKept, LifetimesOld;
    StepOnward(w, step);
    assert LoadInOrder(w, w.readers[id]);
    hide Onward;
    if Do(w, step).readers[id].phase != w.readers[id].phase { PhaseMoves(w, step, id); }
  }

  /** Every answer ends the load: in a second one, a commit, an error, a discard or a yield. */
  lemma AnswerDecides(w: World, w': World, id: nat, reply: Reply, relevant: set<Resource>)
    requires Good(w) && id < |w.readers| && w.readers[id].phase.Loading?
    requires w' == Answered(w, id, reply, relevant)
    ensures id < |w'.readers| && Rank(w'.readers[id].phase) < Rank(w.readers[id].phase)
  {
    hide After, Capture, OwnedBy, AcknowledgedIn, OwnersLatest, OwnersKept, LifetimesOld;
    assert LoadInOrder(w, w.readers[id]);
  }

  /** A read that fails or yields leaves the cache alone. */
  lemma OnlyCommitsWrite(w: World, w': World, id: nat, reply: Reply, relevant: set<Resource>)
    requires id < |w.readers| && w.readers[id].phase.Loading? && w' == Answered(w, id, reply, relevant)
    requires id < |w'.readers| && (w'.readers[id].phase == Done(Failed) || w'.readers[id].phase == Done(Yielded))
    ensures w'.cells == w.cells
  {
    hide After, Capture, OwnedBy;
  }

  /** A read that gives up takes what it still owns out of the cache, and nothing else. */
  lemma DiscardForgets(w: World, w': World, id: nat, reply: Reply, relevant: set<Resource>,
                       k: (Name, Resource))
    requires id < |w.readers| && w.readers[id].phase.Loading? && w' == Answered(w, id, reply, relevant)
    requires id < |w'.readers| && w'.readers[id].phase == Done(Discarded)
    ensures k in w'.cells <==> k in w.cells && !(k.0 == w.readers[id].conn && Owned(w, id, k.1) && k.1 in relevant)
  {
    hide After, Capture, Owned;
    assert w' == Discard(w, id, OwnedBy(w, id, relevant)) by { hide OwnedBy; }
    hide Answered;
  }
}
