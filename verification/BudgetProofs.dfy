/** What holds of the result cache in every state, at every callback and after every enforcement. */
module BudgetProofs {
  import opened BudgetModel

  // ---- the account ----

  lemma PutValid(s: State, e: Entry)
    requires s.Valid()
    ensures Put(s, e).Valid()
  {
    var r, i := Put(s, e), Find(s.slots, e.key);
    assert forall j | 0 <= j < |s.slots| :: r.slots[j] == if j == i then s.slots[j].(entry := e) else s.slots[j];
  }

  lemma DropValid(s: State, i: nat, r: State)
    requires s.Valid() && i < |s.slots| && r.slots == DropAt(s.slots, i) && r.clock == s.clock
    requires r.pins == s.pins && r.held <= s.held && r.unreleased == s.unreleased
    ensures r.Valid()
    ensures Find(r.slots, s.slots[i].entry.key) == |r.slots|
  {
    var k := s.slots[i].entry.key;
    assert forall j | 0 <= j < |r.slots| :: r.slots[j] == if j < i then s.slots[j] else s.slots[j + 1];
    hide DropAt, Find;
    assert forall j | 0 <= j < |r.slots| :: r.slots[j].entry.key != k;
  }

  lemma PutBalanced(s: State, e: Entry, r: State)
    requires s.Valid() && r == Put(s, e).(retained := r.retained)
    requires r.retained - e.bytes + BytesAt(s.slots, e.key) == Bytes(s.slots)
    ensures r.Valid() && r.Balanced()
  {
    PutWeight(s, e);
    PutValid(s, e);
  }

  lemma TouchBalanced(s: State, i: nat)
    requires s.Valid() && s.Balanced() && i < |s.slots|
    ensures var r := Put(s.(slots := DropAt(s.slots, i)), s.slots[i].entry); r.Valid() && r.Balanced()
  {
    var r := s.(slots := DropAt(s.slots, i));
    WeightAt(s.slots, i);
    DropValid(s, i, r);
    PutBalanced(r, s.slots[i].entry, Put(r, s.slots[i].entry));
  }

  lemma RemoveBalanced(s: State, k: Key)
    requires s.Valid() && s.Balanced()
    ensures Apply(s, Remove(k)).Valid() && Apply(s, Remove(k)).Balanced()
  {
    var i := Find(s.slots, k);
    if i < |s.slots| {
      WeightAt(s.slots, i);
      DropValid(s, i, Apply(s, Remove(k)));
    }
  }

  /** Every operation, alone or inside a callback, keeps the account exact. */
  lemma ApplyBalanced(s: State, op: Op)
    requires s.Valid() && s.Balanced()
    ensures Apply(s, op).Valid() && Apply(s, op).Balanced()
  {
    hide Put, Find, BytesAt, DropAt, Bytes;
    match op
    case Track(e) => PutBalanced(s, e, Apply(s, op));
    case Transfer(k, evict) =>
      var i := Find(s.slots, k);
      if i < |s.slots| { TransferBalanced(s, i, evict); }
    case Touch(k) =>
      var i := Find(s.slots, k);
      if i < |s.slots| { TouchBalanced(s, i); }
    case Remove(k) => RemoveBalanced(s, k);
    case _ =>
  }

  lemma TransferBalanced(s: State, i: nat, evict: seq<Op>)
    requires s.Valid() && s.Balanced() && i < |s.slots| && i == Find(s.slots, s.slots[i].entry.key)
    ensures var r := Put(s, s.slots[i].entry.(evict := evict)); r.Valid() && r.Balanced()
  {
    var e := s.slots[i].entry.(evict := evict);
    PutBalanced(s, e, Put(s, e));
  }

  lemma {:induction false} ScriptBalanced(s: State, script: seq<Op>)
    requires s.Valid() && s.Balanced()
    ensures RunScript(s, script).Valid() && RunScript(s, script).Balanced()
  {
    if script != [] {
      ScriptBalanced(s, script[..|script| - 1]);
      ApplyBalanced(RunScript(s, script[..|script| - 1]), script[|script| - 1]);
    }
  }

  lemma DroppedBalanced(s: State, i: nat)
    requires s.Valid() && s.Balanced() && i < |s.slots|
    ensures Dropped(s, i).Valid() && Dropped(s, i).Balanced()
  {
    WeightAt(s.slots, i);
    DropValid(s, i, Dropped(s, i));
  }

  lemma EvictedBalanced(s: State, i: nat)
    requires s.Valid() && s.Balanced() && i < |s.slots|
    ensures Evicted(s, i).Valid() && Evicted(s, i).Balanced()
  {
    DroppedBalanced(s, i);
    ScriptBalanced(Dropped(s, i), s.slots[i].entry.evict);
  }

  // ---- what is evicted, and when ----

  /** The state just before an eviction, and which slot goes. */
  datatype Moment = Moment(before: State, at: nat) {
    function Stamp(): int
      requires at < |before.slots|
    {
      before.slots[at].stamp
    }
  }

  /** The evictions of an enforcement, in order. */
  function Evictions(s: State, budget: int, cursor: int): seq<Moment>
    decreases Weight(s.slots), |s.slots| - NextAfter(s.slots, cursor)
  {
    var i := NextAfter(s.slots, cursor);
    if i == |s.slots| || s.retained <= budget then []
    else
      var slot := s.slots[i];
      if s.Leased(slot.entry.key) then
        NextAdvances(s.slots, cursor);
        Evictions(s, budget, slot.stamp)
      else [Moment(s, i)] + Evictions(Evicted(s, i), budget, slot.stamp)
  }

  /** An eviction is of an unleased entry, while over budget, with the account exact as its callback starts. */
  ghost predicate Justified(m: Moment, budget: int) {
    && m.at < |m.before.slots|
    && m.before.retained > budget
    && !m.before.Leased(m.before.slots[m.at].entry.key)
    && Dropped(m.before, m.at).Balanced()
  }

  /** Later evictions are of entries put later, so none is evicted twice. */
  ghost predicate InOrder(ms: seq<Moment>, cursor: int) {
    && (forall m | m in ms :: m.at < |m.before.slots| && cursor < m.Stamp())
    && (forall i, j | 0 <= i < j < |ms| :: ms[i].Stamp() < ms[j].Stamp())
  }

  lemma InOrderFrom(m: Moment, rest: seq<Moment>, cursor: int)
    requires m.at < |m.before.slots| && cursor < m.Stamp() && InOrder(rest, m.Stamp())
    ensures InOrder([m] + rest, cursor)
  {
  }

  lemma InOrderSooner(ms: seq<Moment>, cursor: int, sooner: int)
    requires InOrder(ms, cursor) && sooner <= cursor
    ensures InOrder(ms, sooner)
  {
  }

  lemma {:induction false} EnforceSound(s: State, budget: int, cursor: int)
    requires s.Valid() && s.Balanced()
    ensures EnforceFrom(s, budget, cursor).Valid() && EnforceFrom(s, budget, cursor).Balanced()
    ensures forall m | m in Evictions(s, budget, cursor) :: Justified(m, budget)
    ensures InOrder(Evictions(s, budget, cursor), cursor)
    decreases Weight(s.slots), |s.slots| - NextAfter(s.slots, cursor)
  {
    hide Evicted, Dropped, State.Valid, State.Balanced, State.Leased;
    var i := NextAfter(s.slots, cursor);
    if i < |s.slots| && s.retained > budget {
      hide InOrder;
      var slot := s.slots[i];
      if s.Leased(slot.entry.key) {
        NextAdvances(s.slots, cursor);
        EnforceSound(s, budget, slot.stamp);
        InOrderSooner(Evictions(s, budget, slot.stamp), slot.stamp, cursor);
      } else {
        DroppedBalanced(s, i);
        EvictedBalanced(s, i);
        EnforceSound(Evicted(s, i), budget, slot.stamp);
        InOrderFrom(Moment(s, i), Evictions(Evicted(s, i), budget, slot.stamp), cursor);
      }
    }
  }

  /** The account is exact after every public operation. */
  lemma DoBalanced(s: State, op: Op, budget: int)
    requires s.Valid() && s.Balanced()
    ensures Do(s, op, budget).Valid() && Do(s, op, budget).Balanced()
  {
    ApplyBalanced(s, op);
    EnforceSound(Apply(s, op), budget, -1);
  }

  // ---- callbacks that release nothing ----

  predicate QuietOp(op: Op) {
    match op
    case Track(e) => Quiet(e.evict)
    case Transfer(_, evict) => Quiet(evict)
    case Release(_) => false
    case _ => true
  }

  predicate Quiet(script: seq<Op>) {
    forall op | op in script :: QuietOp(op)
  }

  predicate AllQuiet(slots: seq<Slot>) {
    forall i | 0 <= i < |slots| :: Quiet(slots[i].entry.evict)
  }

  /** Every entry put up to a stamp is leased. */
  predicate PassedLeased(s: State, cursor: int) {
    forall i | 0 <= i < |s.slots| :: s.slots[i].stamp <= cursor ==> s.Leased(s.slots[i].entry.key)
  }

  lemma QuietPut(s: State, e: Entry, r: State, cursor: int)
    requires s.Valid() && AllQuiet(s.slots) && Quiet(e.evict) && PassedLeased(s, cursor) && cursor < s.clock
    requires r == Put(s, e).(retained := r.retained)
    ensures AllQuiet(r.slots) && PassedLeased(r, cursor) && cursor < r.clock
  {
    var i := Find(s.slots, e.key);
    assert forall j | 0 <= j < |s.slots| :: r.slots[j] == if j == i then s.slots[j].(entry := e) else s.slots[j];
    assert forall k :: r.Leased(k) == s.Leased(k);
  }

  lemma QuietDrop(s: State, i: nat, r: State, cursor: int)
    requires AllQuiet(s.slots) && PassedLeased(s, cursor) && i <= |s.slots| && r.slots == DropAt(s.slots, i)
    requires forall k :: s.Leased(k) && (i < |s.slots| ==> k != s.slots[i].entry.key) ==> r.Leased(k)
    requires s.Valid()
    ensures AllQuiet(r.slots) && PassedLeased(r, cursor)
  {
    assert forall j | 0 <= j < |r.slots| :: r.slots[j] == if j < i then s.slots[j] else s.slots[j + 1];
  }

  lemma RemoveKeepsOthers(s: State, k: Key, x: Key)
    requires s.Leased(x) && x != k
    ensures Apply(s, Remove(k)).Leased(x)
  {
    var n :| n in s.held && n < |s.pins| && s.pins[n] == x;
    assert n in Apply(s, Remove(k)).held;
  }

  lemma RemoveQuiet(s: State, k: Key, cursor: int)
    requires s.Valid() && AllQuiet(s.slots) && PassedLeased(s, cursor)
    ensures AllQuiet(Apply(s, Remove(k)).slots) && PassedLeased(Apply(s, Remove(k)), cursor)
  {
    var r, i := Apply(s, Remove(k)), Find(s.slots, k);
    forall x | s.Leased(x) && x != k ensures r.Leased(x) { RemoveKeepsOthers(s, k, x); }
    if i < |s.slots| {
      hide State.Leased, DropAt;
      QuietDrop(s, i, r, cursor);
    } else {
      UntrackedQuiet(s, k, r, cursor);
    }
  }

  lemma UntrackedQuiet(s: State, k: Key, r: State, cursor: int)
    requires AllQuiet(s.slots) && PassedLeased(s, cursor) && Find(s.slots, k) == |s.slots| && r.slots == s.slots
    requires forall x :: s.Leased(x) && x != k ==> r.Leased(x)
    ensures AllQuiet(r.slots) && PassedLeased(r, cursor)
  {
    hide State.Leased;
  }

  lemma PinQuiet(s: State, k: Key, cursor: int)
    requires s.Valid() && PassedLeased(s, cursor)
    ensures PassedLeased(Apply(s, Pin(k)), cursor)
  {
    var r := Apply(s, Pin(k));
    forall i | 0 <= i < |r.slots| && r.slots[i].stamp <= cursor ensures r.Leased(r.slots[i].entry.key) {
      var n :| n in s.held && n < |s.pins| && s.pins[n] == s.slots[i].entry.key;
      assert n in r.held && r.pins[n] == s.pins[n];
    }
  }

  lemma QuietStep(s: State, op: Op, cursor: int)
    requires s.Valid() && AllQuiet(s.slots) && QuietOp(op) && PassedLeased(s, cursor) && cursor < s.clock
    ensures AllQuiet(Apply(s, op).slots) && PassedLeased(Apply(s, op), cursor) && cursor < Apply(s, op).clock
  {
    hide Put, Find, BytesAt, DropAt;
    match op
    case Track(e) => QuietPut(s, e, Apply(s, op), cursor);
    case Transfer(k, evict) =>
      var i := Find(s.slots, k);
      if i < |s.slots| { QuietPut(s, s.slots[i].entry.(evict := evict), Apply(s, op), cursor); }
    case Touch(k) =>
      var i := Find(s.slots, k);
      if i < |s.slots| {
        var d := s.(slots := DropAt(s.slots, i));
        QuietDrop(s, i, d, cursor);
        DropValid(s, i, d);
        QuietPut(d, s.slots[i].entry, Apply(s, op), cursor);
      }
    case Remove(k) => RemoveQuiet(s, k, cursor);
    case Pin(k) => PinQuiet(s, k, cursor);
    case Enforce =>
  }

  lemma {:induction false} QuietScript(s: State, script: seq<Op>, cursor: int)
    requires s.Valid() && s.Balanced() && AllQuiet(s.slots) && Quiet(script) && PassedLeased(s, cursor)
             && cursor < s.clock
    ensures var r := RunScript(s, script); AllQuiet(r.slots) && PassedLeased(r, cursor) && cursor < r.clock
  {
    if script != [] {
      var init := script[..|script| - 1];
      QuietScript(s, init, cursor);
      ScriptBalanced(s, init);
      QuietStep(RunScript(s, init), script[|script| - 1], cursor);
    }
  }

  lemma QuietEviction(s: State, i: nat, cursor: int)
    requires s.Valid() && s.Balanced() && AllQuiet(s.slots) && PassedLeased(s, cursor)
    requires i == NextAfter(s.slots, cursor) < |s.slots|
    ensures AllQuiet(Evicted(s, i).slots) && PassedLeased(Evicted(s, i), s.slots[i].stamp)
  {
    DropPassed(s, i, cursor);
    DroppedBalanced(s, i);
    hide AllQuiet, PassedLeased, State.Valid, State.Balanced, State.Leased, RunScript;
    QuietScript(Dropped(s, i), s.slots[i].entry.evict, s.slots[i].stamp);
  }

  lemma DropPassed(s: State, i: nat, cursor: int)
    requires s.Valid() && AllQuiet(s.slots) && PassedLeased(s, cursor) && i == NextAfter(s.slots, cursor) < |s.slots|
    ensures AllQuiet(Dropped(s, i).slots) && PassedLeased(Dropped(s, i), s.slots[i].stamp)
    ensures Quiet(s.slots[i].entry.evict) && s.slots[i].stamp < Dropped(s, i).clock
  {
    var d := Dropped(s, i);
    assert forall j | 0 <= j < |d.slots| :: d.slots[j] == if j < i then s.slots[j] else s.slots[j + 1];
    assert forall k :: d.Leased(k) == s.Leased(k);
    hide State.Leased, DropAt, QuietOp;
  }

  /** Then enforcement ends within budget or with every remaining entry leased, oldest unleased first. */
  lemma {:induction false} EnforceSettles(s: State, budget: int, cursor: int)
    requires s.Valid() && s.Balanced() && AllQuiet(s.slots) && PassedLeased(s, cursor)
    ensures var r := EnforceFrom(s, budget, cursor);
            r.retained <= budget || forall i | 0 <= i < |r.slots| :: r.Leased(r.slots[i].entry.key)
    ensures forall m | m in Evictions(s, budget, cursor) :: m.at < |m.before.slots| &&
              forall j | 0 <= j < m.at :: m.before.Leased(m.before.slots[j].entry.key)
    decreases Weight(s.slots), |s.slots| - NextAfter(s.slots, cursor)
  {
    hide Evicted, DropAt, Bytes, RunScript;
    var i := NextAfter(s.slots, cursor);
    if i < |s.slots| && s.retained > budget {
      var slot := s.slots[i];
      if s.Leased(slot.entry.key) {
        NextAdvances(s.slots, cursor);
        EnforceSettles(s, budget, slot.stamp);
      } else {
        EvictedBalanced(s, i);
        QuietEviction(s, i, cursor);
        EnforceSettles(Evicted(s, i), budget, slot.stamp);
      }
    }
  }

  // ---- and otherwise only because a lease was dropped that the pass had gone by ----

  /** A release of a lease that protects an entry the pass has gone by. */
  predicate DropsPassed(s: State, op: Op, cursor: int) {
    op.Release? && op.lease in s.held && op.lease < |s.pins|
    && exists i :: 0 <= i < |s.slots| && s.slots[i].stamp <= cursor && s.slots[i].entry.key == s.pins[op.lease]
  }

  predicate ScriptDrops(s: State, script: seq<Op>, cursor: int) {
    script != [] &&
    (ScriptDrops(s, script[..|script| - 1], cursor)
     || DropsPassed(RunScript(s, script[..|script| - 1]), script[|script| - 1], cursor))
  }

  /** Some callback of an enforcement does so. */
  predicate EnforceDrops(s: State, budget: int, cursor: int)
    decreases Weight(s.slots), |s.slots| - NextAfter(s.slots, cursor)
  {
    var i := NextAfter(s.slots, cursor);
    if i == |s.slots| || s.retained <= budget then false
    else
      var slot := s.slots[i];
      if s.Leased(slot.entry.key) then
        NextAdvances(s.slots, cursor);
        EnforceDrops(s, budget, slot.stamp)
      else ScriptDrops(Dropped(s, i), slot.entry.evict, slot.stamp) || EnforceDrops(Evicted(s, i), budget, slot.stamp)
  }

  lemma PassedPut(s: State, e: Entry, r: State, cursor: int)
    requires s.Valid() && PassedLeased(s, cursor) && cursor < s.clock && r == Put(s, e).(retained := r.retained)
    ensures PassedLeased(r, cursor) && cursor < r.clock
  {
    var i := Find(s.slots, e.key);
    assert forall j | 0 <= j < |s.slots| :: r.slots[j] == if j == i then s.slots[j].(entry := e) else s.slots[j];
    assert forall k :: r.Leased(k) == s.Leased(k);
    hide State.Leased;
  }

  lemma PassedDrop(s: State, i: nat, r: State, cursor: int)
    requires PassedLeased(s, cursor) && i <= |s.slots| && r.slots == DropAt(s.slots, i) && s.Valid()
    requires forall k :: s.Leased(k) && (i < |s.slots| ==> k != s.slots[i].entry.key) ==> r.Leased(k)
    ensures PassedLeased(r, cursor)
  {
    assert forall j | 0 <= j < |r.slots| :: r.slots[j] == if j < i then s.slots[j] else s.slots[j + 1];
    hide State.Leased;
  }

  lemma PassedRelease(s: State, n: nat, cursor: int)
    requires s.Valid() && PassedLeased(s, cursor) && !DropsPassed(s, Release(n), cursor)
    ensures PassedLeased(Apply(s, Release(n)), cursor)
  {
    var r := Apply(s, Release(n));
    forall i | 0 <= i < |r.slots| && r.slots[i].stamp <= cursor ensures r.Leased(r.slots[i].entry.key) {
      assert s.slots[i].stamp <= cursor;
      var m :| m in s.held && m < |s.pins| && s.pins[m] == s.slots[i].entry.key;
      assert m in r.held;
    }
  }

  lemma PassedRemove(s: State, k: Key, cursor: int)
    requires s.Valid() && PassedLeased(s, cursor)
    ensures PassedLeased(Apply(s, Remove(k)), cursor)
  {
    var r, i := Apply(s, Remove(k)), Find(s.slots, k);
    forall x | s.Leased(x) && x != k ensures r.Leased(x) { RemoveKeepsOthers(s, k, x); }
    if i < |s.slots| {
      hide State.Leased, DropAt;
      PassedDrop(s, i, r, cursor);
    } else {
      hide State.Leased;
    }
  }

  lemma PassedTouch(s: State, i: nat, cursor: int)
    requires s.Valid() && PassedLeased(s, cursor) && cursor < s.clock && i < |s.slots|
    ensures var r := Put(s.(slots := DropAt(s.slots, i)), s.slots[i].entry); PassedLeased(r, cursor) && cursor < r.clock
  {
    var d := s.(slots := DropAt(s.slots, i));
    assert forall k :: d.Leased(k) == s.Leased(k);
    hide State.Leased, Put;
    PassedDrop(s, i, d, cursor);
    DropValid(s, i, d);
    PassedPut(d, s.slots[i].entry, Put(d, s.slots[i].entry), cursor);
  }

  lemma PassedStep(s: State, op: Op, cursor: int)
    requires s.Valid() && PassedLeased(s, cursor) && cursor < s.clock && !DropsPassed(s, op, cursor)
    ensures PassedLeased(Apply(s, op), cursor) && cursor < Apply(s, op).clock
  {
    hide Put, Find, BytesAt, DropAt, DropsPassed, PassedLeased;
    match op
    case Track(e) => PassedPut(s, e, Apply(s, op), cursor);
    case Transfer(k, evict) =>
      var i := Find(s.slots, k);
      if i < |s.slots| { PassedPut(s, s.slots[i].entry.(evict := evict), Apply(s, op), cursor); }
    case Touch(k) =>
      var i := Find(s.slots, k);
      if i < |s.slots| { PassedTouch(s, i, cursor); }
    case Remove(k) => PassedRemove(s, k, cursor);
    case Pin(k) => PinQuiet(s, k, cursor);
    case Release(n) => PassedRelease(s, n, cursor);
    case Enforce =>
  }

  lemma {:induction false} PassedScript(s: State, script: seq<Op>, cursor: int)
    requires s.Valid() && s.Balanced() && PassedLeased(s, cursor) && cursor < s.clock && !ScriptDrops(s, script, cursor)
    ensures PassedLeased(RunScript(s, script), cursor) && cursor < RunScript(s, script).clock
  {
    hide PassedLeased, State.Valid, State.Balanced, DropsPassed;
    if script != [] {
      var init := script[..|script| - 1];
      PassedScript(s, init, cursor);
      ScriptBalanced(s, init);
      PassedStep(RunScript(s, init), script[|script| - 1], cursor);
    }
  }

  lemma PassedEviction(s: State, i: nat, cursor: int)
    requires s.Valid() && s.Balanced() && PassedLeased(s, cursor) && i == NextAfter(s.slots, cursor) < |s.slots|
    requires !ScriptDrops(Dropped(s, i), s.slots[i].entry.evict, s.slots[i].stamp)
    ensures PassedLeased(Evicted(s, i), s.slots[i].stamp)
  {
    DropGoneBy(s, i, cursor);
    DroppedBalanced(s, i);
    hide PassedLeased, State.Valid, State.Balanced, State.Leased, RunScript, ScriptDrops;
    PassedScript(Dropped(s, i), s.slots[i].entry.evict, s.slots[i].stamp);
  }

  lemma DropGoneBy(s: State, i: nat, cursor: int)
    requires s.Valid() && PassedLeased(s, cursor) && i == NextAfter(s.slots, cursor) < |s.slots|
    ensures PassedLeased(Dropped(s, i), s.slots[i].stamp) && s.slots[i].stamp < Dropped(s, i).clock
  {
    var d := Dropped(s, i);
    assert forall j | 0 <= j < |d.slots| :: d.slots[j] == if j < i then s.slots[j] else s.slots[j + 1];
    assert forall k :: d.Leased(k) == s.Leased(k);
    hide State.Leased, DropAt;
  }

  /** Over budget with an entry nothing protects: then some callback dropped a lease the pass had gone by. */
  lemma {:induction false} ExcessOnlyIfDropped(s: State, budget: int, cursor: int)
    requires s.Valid() && s.Balanced() && PassedLeased(s, cursor)
    ensures var r := EnforceFrom(s, budget, cursor);
            r.retained > budget && (exists i :: 0 <= i < |r.slots| && !r.Leased(r.slots[i].entry.key)) ==>
              EnforceDrops(s, budget, cursor)
    decreases Weight(s.slots), |s.slots| - NextAfter(s.slots, cursor)
  {
    hide Evicted, DropAt, Bytes, RunScript, ScriptDrops, Dropped;
    var i := NextAfter(s.slots, cursor);
    if i < |s.slots| && s.retained > budget {
      var slot := s.slots[i];
      if s.Leased(slot.entry.key) {
        NextAdvances(s.slots, cursor);
        PassedOneMore(s, i, cursor);
        hide PassedLeased, State.Valid, State.Balanced;
        ExcessOnlyIfDropped(s, budget, slot.stamp);
      } else if !ScriptDrops(Dropped(s, i), slot.entry.evict, slot.stamp) {
        EvictedBalanced(s, i);
        PassedEviction(s, i, cursor);
        hide PassedLeased, State.Valid, State.Balanced;
        ExcessOnlyIfDropped(Evicted(s, i), budget, slot.stamp);
      }
    }
  }

  lemma PassedOneMore(s: State, i: nat, cursor: int)
    requires s.Valid() && PassedLeased(s, cursor) && i == NextAfter(s.slots, cursor) < |s.slots|
             && s.Leased(s.slots[i].entry.key)
    ensures PassedLeased(s, s.slots[i].stamp)
  {
    hide State.Leased;
  }

  /** A callback that releases a lease it passed: the entry stays, unleased, over budget. */
  lemma ReleasingCallbackLeavesExcess()
    ensures exists s: State, budget: int :: s.Valid() && s.Balanced() && !AllQuiet(s.slots) &&
              var r := EnforceFrom(s, budget, -1);
              r.retained > budget && |r.slots| > 0 && !r.Leased(r.slots[0].entry.key)
  {
    var a, b := Slot(0, Entry("a", 2, [])), Slot(1, Entry("b", 1, [Release(0)]));
    var s := State([a, b], 2, 3, ["a"], {0}, {0});
    assert s.slots[1..] == [b] && [b][1..] == [];
    assert Bytes([b]) == 1 && Bytes(s.slots) == s.slots[0].entry.bytes + Bytes(s.slots[1..]) == 3;
    assert s.Leased("a") && !s.Leased("b");
    var d := Dropped(s, 1);
    assert d.slots == [a];
    var r := Apply(d, Release(0));
    assert b.entry.evict[..0] == [] && r.held == {};
    assert RunScript(d, [Release(0)]) == Apply(RunScript(d, []), Release(0)) == r;
    assert Dropped(s, 1) == d && Evicted(s, 1) == r && !r.Leased("a");
    assert NextAfter(s.slots, -1) == 0 && NextAfter(s.slots, 0) == 1 && NextAfter(r.slots, 1) == 1;
    assert EnforceFrom(s, 1, -1) == EnforceFrom(s, 1, 0) == EnforceFrom(r, 1, 1) == r;
    assert !QuietOp(b.entry.evict[0]) && !Quiet(s.slots[1].entry.evict);
  }

  // ---- callbacks that do not come back to the cache ----

  /** The reference: drop unleased slots from the old end for as long as there is an excess. */
  function OldestOut(s: State, slots: seq<Slot>, excess: int): seq<Slot> {
    if slots == [] || excess <= 0 then slots
    else if s.Leased(slots[0].entry.key) then [slots[0]] + OldestOut(s, slots[1..], excess)
    else OldestOut(s, slots[1..], excess - slots[0].entry.bytes)
  }

  predicate Plain(slots: seq<Slot>) {
    forall i | 0 <= i < |slots| :: slots[i].entry.evict == []
  }

  lemma {:induction false} NextAt(slots: seq<Slot>, i: nat, cursor: int)
    requires i <= |slots| && (forall j | 0 <= j < i :: slots[j].stamp <= cursor)
    requires forall j | i <= j < |slots| :: slots[j].stamp > cursor
    ensures NextAfter(slots, cursor) == i
  {
    if i > 0 { NextAt(slots[1..], i - 1, cursor); }
  }

  lemma DropSplits(slots: seq<Slot>, i: nat)
    requires i < |slots|
    ensures var d := DropAt(slots, i); d[..i] == slots[..i] && d[i..] == slots[i + 1..] && (Plain(slots) ==> Plain(d))
  {
    var d := DropAt(slots, i);
    assert forall j | 0 <= j < |d| :: d[j] == if j < i then slots[j] else slots[j + 1];
  }

  lemma PlainEviction(s: State, i: nat, cursor: int)
    requires s.Valid() && Plain(s.slots) && i == NextAfter(s.slots, cursor) < |s.slots|
    ensures var d := Dropped(s, i);
            && Evicted(s, i) == d && d.Valid() && Plain(d.slots) && NextAfter(d.slots, s.slots[i].stamp) == i
            && d.slots[..i] == s.slots[..i] && d.slots[i..] == s.slots[i + 1..]
  {
    var d := Dropped(s, i);
    assert Evicted(s, i) == d;
    hide Evicted, RunScript, Weight, Bytes, Find;
    DropSplits(s.slots, i);
    PassedStamps(s, cursor, i);
    DropValid(s, i, d);
    NextAt(d.slots, i, s.slots[i].stamp);
  }

  lemma PlainSkip(s: State, i: nat, cursor: int)
    requires s.Valid() && i == NextAfter(s.slots, cursor) < |s.slots|
    ensures NextAfter(s.slots, s.slots[i].stamp) == i + 1
  {
    NextAt(s.slots, i + 1, s.slots[i].stamp);
  }

  lemma EnforceStep(s: State, budget: int, cursor: int, i: nat)
    requires i == NextAfter(s.slots, cursor)
    ensures EnforceFrom(s, budget, cursor) ==
              if i == |s.slots| || s.retained <= budget then s
              else if s.Leased(s.slots[i].entry.key) then EnforceFrom(s, budget, s.slots[i].stamp)
              else EnforceFrom(Evicted(s, i), budget, s.slots[i].stamp)
  {
  }

  lemma OldestOutStep(s: State, slot: Slot, rest: seq<Slot>, excess: int)
    requires excess > 0
    ensures OldestOut(s, [slot] + rest, excess) ==
              if s.Leased(slot.entry.key) then [slot] + OldestOut(s, rest, excess)
              else OldestOut(s, rest, excess - slot.entry.bytes)
  {
    assert ([slot] + rest)[1..] == rest;
  }

  lemma SplitSlots(slots: seq<Slot>, i: nat, rest: seq<Slot>)
    requires i < |slots|
    ensures slots[i..] == [slots[i]] + slots[i + 1..]
    ensures slots[..i + 1] + rest == slots[..i] + ([slots[i]] + rest)
  {
  }

  /** What one pass over the slots from `i` on leaves. */
  ghost predicate OnePass(s: State, budget: int, i: nat, r: State) {
    && i <= |s.slots|
    && r.slots == s.slots[..i] + OldestOut(s, s.slots[i..], s.retained - budget)
    && r == s.(slots := r.slots, retained := r.retained)
  }

  lemma AfterSkip(s: State, budget: int, i: nat, r: State)
    requires i < |s.slots| && s.retained > budget && s.Leased(s.slots[i].entry.key) && OnePass(s, budget, i + 1, r)
    ensures OnePass(s, budget, i, r)
  {
    var slot, rest, excess := s.slots[i], s.slots[i + 1..], s.retained - budget;
    SplitSlots(s.slots, i, OldestOut(s, rest, excess));
    OldestOutStep(s, slot, rest, excess);
  }

  lemma AfterEviction(s: State, budget: int, i: nat, d: State, r: State)
    requires i < |s.slots| && s.retained > budget && !s.Leased(s.slots[i].entry.key) && OnePass(d, budget, i, r)
    requires d == s.(slots := d.slots, retained := s.retained - s.slots[i].entry.bytes)
    requires d.slots[..i] == s.slots[..i] && d.slots[i..] == s.slots[i + 1..]
    ensures OnePass(s, budget, i, r)
  {
    var slot, rest, excess := s.slots[i], s.slots[i + 1..], s.retained - budget;
    SplitSlots(s.slots, i, []);
    OldestOutStep(s, slot, rest, excess);
    SameLeases(s, d, rest, excess - slot.entry.bytes);
  }

  /** Then the live iteration is one pass from the old end, and touches nothing else. */
  lemma {:induction false} EnforceIsOldestOut(s: State, budget: int, cursor: int, i: nat)
    requires s.Valid() && Plain(s.slots) && i == NextAfter(s.slots, cursor)
    ensures OnePass(s, budget, i, EnforceFrom(s, budget, cursor))
    decreases |s.slots| - i
  {
    hide OldestOut, Evicted, NextAfter, Plain;
    EnforceStep(s, budget, cursor, i);
    var r := EnforceFrom(s, budget, cursor);
    if i < |s.slots| && s.retained > budget {
      hide EnforceFrom, OnePass;
      var stamp := s.slots[i].stamp;
      if s.Leased(s.slots[i].entry.key) {
        PlainSkip(s, i, cursor);
        EnforceIsOldestOut(s, budget, stamp, i + 1);
        AfterSkip(s, budget, i, r);
      } else {
        PlainEviction(s, i, cursor);
        DroppedIs(s, i);
        EnforceIsOldestOut(Dropped(s, i), budget, stamp, i);
        AfterEviction(s, budget, i, Dropped(s, i), r);
      }
    } else {
      StopsAtOnce(s, budget, i);
    }
  }

  lemma StopsAtOnce(s: State, budget: int, i: nat)
    requires i <= |s.slots| && (i == |s.slots| || s.retained <= budget)
    ensures OnePass(s, budget, i, s)
  {
    assert s.slots == s.slots[..i] + s.slots[i..];
  }

  lemma DroppedIs(s: State, i: nat)
    requires i < |s.slots|
    ensures var d := Dropped(s, i);
            d == s.(slots := d.slots, retained := s.retained - s.slots[i].entry.bytes) && |d.slots| == |s.slots| - 1
  {
  }

  lemma PassedStamps(s: State, cursor: int, i: nat)
    requires s.Valid() && i == NextAfter(s.slots, cursor) < |s.slots|
    ensures var d := DropAt(s.slots, i);
            (forall j | 0 <= j < i :: d[j].stamp <= s.slots[i].stamp) &&
            forall j | i <= j < |d| :: d[j].stamp > s.slots[i].stamp
  {
  }

  lemma {:induction false} SameLeases(s: State, d: State, slots: seq<Slot>, excess: int)
    requires s.pins == d.pins && s.held == d.held
    ensures OldestOut(s, slots, excess) == OldestOut(d, slots, excess)
  {
    if slots != [] && excess > 0 {
      SameLeases(s, d, slots[1..], excess);
      SameLeases(s, d, slots[1..], excess - slots[0].entry.bytes);
    }
  }

  // ---- leases ----

  /** A pin that no longer protects its key never does again, and a release is not taken back. */
  ghost predicate StaysStale(s: State, r: State, n: nat)
    requires n < |s.pins|
  {
    n < |r.pins| && r.pins[n] == s.pins[n] && (n !in s.held ==> n !in r.held)
    && (n !in s.unreleased ==> n !in r.unreleased)
  }

  lemma StaleStep(s: State, op: Op, n: nat)
    requires n < |s.pins|
    ensures StaysStale(s, Apply(s, op), n)
  {
  }

  lemma {:induction false} StaleScript(s: State, script: seq<Op>, n: nat)
    requires n < |s.pins|
    ensures StaysStale(s, RunScript(s, script), n)
  {
    if script != [] {
      StaleScript(s, script[..|script| - 1], n);
      StaleStep(RunScript(s, script[..|script| - 1]), script[|script| - 1], n);
    }
  }

  lemma {:induction false} StaleEnforce(s: State, budget: int, cursor: int, n: nat)
    requires n < |s.pins|
    ensures StaysStale(s, EnforceFrom(s, budget, cursor), n)
    decreases Weight(s.slots), |s.slots| - NextAfter(s.slots, cursor)
  {
    hide DropAt, Bytes;
    var i := NextAfter(s.slots, cursor);
    if i < |s.slots| && s.retained > budget {
      var slot := s.slots[i];
      if s.Leased(slot.entry.key) {
        NextAdvances(s.slots, cursor);
        StaleEnforce(s, budget, slot.stamp, n);
      } else {
        StaleScript(Dropped(s, i), slot.entry.evict, n);
        StaleEnforce(Evicted(s, i), budget, slot.stamp, n);
      }
    }
  }

  /** Public operations one after another. */
  function Run(s: State, ops: seq<Op>, budget: int): State {
    if ops == [] then s else Do(Run(s, ops[..|ops| - 1], budget), ops[|ops| - 1], budget)
  }

  lemma {:induction false} StaleRun(s: State, ops: seq<Op>, budget: int, n: nat)
    requires n < |s.pins|
    ensures StaysStale(s, Run(s, ops, budget), n)
  {
    if ops != [] {
      StaleRun(s, ops[..|ops| - 1], budget, n);
      var m := Run(s, ops[..|ops| - 1], budget);
      StaleStep(m, ops[|ops| - 1], n);
      StaleEnforce(Apply(m, ops[|ops| - 1]), budget, -1, n);
    }
  }

  /** A release taken before its key was removed drops no lease taken since, however much later it comes. */
  lemma ReleaseAfterRemove(s: State, k: Key, n: nat, later: seq<Op>, budget: int)
    requires n < |s.pins| && s.pins[n] == k
    ensures var r := Run(Do(s, Remove(k), budget), later, budget);
            Apply(r, Release(n)).held == r.held && forall x :: Apply(r, Release(n)).Leased(x) == r.Leased(x)
  {
    var removed := Do(s, Remove(k), budget);
    assert n !in removed.held;
    StaleRun(removed, later, budget, n);
  }

  /**
   Releasing twice is releasing once, whatever happens in between: the second changes nothing and enforces nothing.
   */
  lemma ReleaseOnce(s: State, n: nat, later: seq<Op>, budget: int)
    requires n < |s.pins|
    ensures var r := Run(Do(s, Release(n), budget), later, budget); Do(r, Release(n), budget) == r
  {
    StaleEnforce(Apply(s, Release(n)), budget, -1, n);
    StaleRun(Do(s, Release(n), budget), later, budget, n);
  }
}
