/**
 What the result cache does, as functions on a value: entries in the order of use, a byte
 account, leases, and eviction whose callbacks may call the cache again.
 */
module BudgetModel {
  type Key = string

  /** An operation of the cache; a release names the pin it undoes by its number. */
  datatype Op =
    | Track(entry: Entry)
    | Transfer(key: Key, evict: seq<Op>)
    | Touch(key: Key)
    | Pin(key: Key)
    | Release(lease: nat)
    | Remove(key: Key)
    | Enforce

  /** A tracked result; `evict` is what its callback asks of the cache. */
  datatype Entry = Entry(key: Key, bytes: nat, evict: seq<Op>)

  /** An entry and when it was put at the young end. */
  datatype Slot = Slot(stamp: int, entry: Entry)

  /**
   `pins` are the keys of all pins so far, `unreleased` those not yet undone, and `held` those of
   them that still protect their key.
   */
  datatype State = State(slots: seq<Slot>, clock: nat, retained: int, pins: seq<Key>, unreleased: set<nat>,
                         held: set<nat>) {
    predicate Leased(k: Key) {
      exists n | n in held :: n < |pins| && pins[n] == k
    }

    /** Stamps increase along the order, keys do not repeat, leases come from pins. */
    ghost predicate Valid() {
      && (forall i, j | 0 <= i < j < |slots| ::
            slots[i].stamp < slots[j].stamp && slots[i].entry.key != slots[j].entry.key)
      && (forall i | 0 <= i < |slots| :: 0 <= slots[i].stamp < clock)
      && held <= unreleased
      && (forall n | n in unreleased :: n < |pins|)
    }

    /** The account is the sum over the entries. */
    ghost predicate Balanced() {
      retained == Bytes(slots)
    }
  }

  function Bytes(slots: seq<Slot>): nat {
    if slots == [] then 0 else slots[0].entry.bytes + Bytes(slots[1..])
  }

  /** Where a key is tracked, or the number of slots. */
  function Find(slots: seq<Slot>, k: Key): (i: nat)
    ensures i <= |slots|
    ensures i < |slots| ==> slots[i].entry.key == k
    ensures forall j | 0 <= j < i :: slots[j].entry.key != k
  {
    if slots == [] || slots[0].entry.key == k then 0 else 1 + Find(slots[1..], k)
  }

  function BytesAt(slots: seq<Slot>, k: Key): nat {
    var i := Find(slots, k);
    if i < |slots| then slots[i].entry.bytes else 0
  }

  function DropAt(slots: seq<Slot>, i: nat): seq<Slot> {
    if i < |slots| then slots[..i] + slots[i + 1..] else slots
  }

  /** A key that is tracked keeps its place; a new one goes to the young end. */
  function Put(s: State, e: Entry): State {
    var i := Find(s.slots, e.key);
    if i < |s.slots| then s.(slots := s.slots[i := s.slots[i].(entry := e)])
    else s.(slots := s.slots + [Slot(s.clock, e)], clock := s.clock + 1)
  }

  /** An operation without the enforcement that may follow it. */
  function Apply(s: State, op: Op): State {
    match op
    case Track(e) => Put(s, e).(retained := s.retained + e.bytes - BytesAt(s.slots, e.key))
    case Transfer(k, evict) =>
      var i := Find(s.slots, k);
      if i < |s.slots| then Put(s, s.slots[i].entry.(evict := evict)) else s
    case Touch(k) =>
      var i := Find(s.slots, k);
      if i < |s.slots| then Put(s.(slots := DropAt(s.slots, i)), s.slots[i].entry) else s
    case Pin(k) =>
      s.(pins := s.pins + [k], unreleased := s.unreleased + {|s.pins|}, held := s.held + {|s.pins|})
    case Release(n) => s.(unreleased := s.unreleased - {n}, held := s.held - {n})
    case Remove(k) =>
      s.(slots := DropAt(s.slots, Find(s.slots, k)), retained := s.retained - BytesAt(s.slots, k),
         held := set n | n in s.held && !(n < |s.pins| && s.pins[n] == k))
    case Enforce => s
  }

  function RunScript(s: State, script: seq<Op>): State {
    if script == [] then s else Apply(RunScript(s, script[..|script| - 1]), script[|script| - 1])
  }

  // ---- enforcement ----

  /** The oldest slot put after a stamp, or the number of slots. */
  function NextAfter(slots: seq<Slot>, cursor: int): (i: nat)
    ensures i <= |slots|
    ensures i < |slots| ==> slots[i].stamp > cursor
    ensures forall j | 0 <= j < i :: slots[j].stamp <= cursor
  {
    if slots == [] || slots[0].stamp > cursor then 0 else 1 + NextAfter(slots[1..], cursor)
  }

  /** A slot leaves the cache, before its callback runs. */
  function Dropped(s: State, i: nat): State
    requires i < |s.slots|
  {
    s.(slots := DropAt(s.slots, i), retained := s.retained - s.slots[i].entry.bytes)
  }

  /** Work that callbacks can still cause: every operation and every entry counts once. */
  function OpWeight(op: Op): nat {
    1 + match op
        case Track(e) => 1 + ScriptWeight(e.evict)
        case Transfer(_, evict) => ScriptWeight(evict)
        case _ => 0
  }

  function ScriptWeight(script: seq<Op>): nat {
    if script == [] then 0
    else ScriptWeight(script[..|script| - 1]) + OpWeight(script[|script| - 1])
  }

  function Weight(slots: seq<Slot>): nat {
    if slots == [] then 0 else 1 + ScriptWeight(slots[0].entry.evict) + Weight(slots[1..])
  }

  lemma {:induction false} WeightAt(slots: seq<Slot>, i: nat)
    requires i < |slots|
    ensures Weight(DropAt(slots, i)) == Weight(slots) - 1 - ScriptWeight(slots[i].entry.evict)
    ensures Bytes(DropAt(slots, i)) == Bytes(slots) - slots[i].entry.bytes
  {
    var rest := slots[1..];
    if i == 0 {
      assert DropAt(slots, 0) == rest;
    } else {
      WeightAt(rest, i - 1);
      assert DropAt(slots, i) == [slots[0]] + DropAt(rest, i - 1);
    }
  }

  lemma {:induction false} WeightSet(slots: seq<Slot>, i: nat, x: Slot)
    requires i < |slots|
    ensures Weight(slots[i := x]) == Weight(slots) - ScriptWeight(slots[i].entry.evict) + ScriptWeight(x.entry.evict)
    ensures Bytes(slots[i := x]) == Bytes(slots) - slots[i].entry.bytes + x.entry.bytes
  {
    var rest := slots[1..];
    if i == 0 {
      assert slots[0 := x][1..] == rest;
    } else {
      WeightSet(rest, i - 1, x);
      assert slots[i := x][1..] == rest[i - 1 := x];
    }
  }

  lemma {:induction false} WeightAppend(slots: seq<Slot>, x: Slot)
    ensures Weight(slots + [x]) == Weight(slots) + 1 + ScriptWeight(x.entry.evict)
    ensures Bytes(slots + [x]) == Bytes(slots) + x.entry.bytes
  {
    if slots == [] {
      assert slots + [x] == [x];
    } else {
      WeightAppend(slots[1..], x);
      assert (slots + [x])[1..] == slots[1..] + [x];
    }
  }

  lemma PutWeight(s: State, e: Entry)
    ensures Weight(Put(s, e).slots) <= Weight(s.slots) + 1 + ScriptWeight(e.evict)
    ensures Find(s.slots, e.key) < |s.slots| ==> Weight(Put(s, e).slots) <= Weight(s.slots) + ScriptWeight(e.evict)
    ensures Bytes(Put(s, e).slots) == Bytes(s.slots) - BytesAt(s.slots, e.key) + e.bytes
  {
    var i := Find(s.slots, e.key);
    if i < |s.slots| {
      WeightSet(s.slots, i, s.slots[i].(entry := e));
    } else {
      WeightAppend(s.slots, Slot(s.clock, e));
    }
  }

  /** An operation spends at least its own weight. */
  lemma ApplyWeight(s: State, op: Op)
    ensures Weight(Apply(s, op).slots) < Weight(s.slots) + OpWeight(op)
  {
    match op
    case Track(e) => PutWeight(s, e);
    case Transfer(k, evict) =>
      var i := Find(s.slots, k);
      if i < |s.slots| { PutWeight(s, s.slots[i].entry.(evict := evict)); }
    case Touch(k) =>
      var i := Find(s.slots, k);
      if i < |s.slots| {
        WeightAt(s.slots, i);
        PutWeight(s.(slots := DropAt(s.slots, i)), s.slots[i].entry);
      }
    case Remove(k) =>
      var i := Find(s.slots, k);
      if i < |s.slots| { WeightAt(s.slots, i); }
    case _ =>
  }

  lemma {:induction false} ScriptSpends(s: State, script: seq<Op>)
    ensures Weight(RunScript(s, script).slots) <= Weight(s.slots) + ScriptWeight(script)
  {
    if script != [] {
      ScriptSpends(s, script[..|script| - 1]);
      ApplyWeight(RunScript(s, script[..|script| - 1]), script[|script| - 1]);
    }
  }

  /** A slot is evicted: it leaves, then its callback runs. */
  function Evicted(s: State, i: nat): (r: State)
    requires i < |s.slots|
    ensures Weight(r.slots) < Weight(s.slots)
  {
    WeightAt(s.slots, i);
    ScriptSpends(Dropped(s, i), s.slots[i].entry.evict);
    RunScript(Dropped(s, i), s.slots[i].entry.evict)
  }

  /** Eviction from the old end, live: callbacks may change what is still to be visited. */
  function EnforceFrom(s: State, budget: int, cursor: int): State
    decreases Weight(s.slots), |s.slots| - NextAfter(s.slots, cursor)
  {
    var i := NextAfter(s.slots, cursor);
    if i == |s.slots| || s.retained <= budget then s
    else
      var slot := s.slots[i];
      if s.Leased(slot.entry.key) then
        NextAdvances(s.slots, cursor);
        EnforceFrom(s, budget, slot.stamp)
      else EnforceFrom(Evicted(s, i), budget, slot.stamp)
  }

  lemma NextAdvances(slots: seq<Slot>, cursor: int)
    requires NextAfter(slots, cursor) < |slots|
    ensures NextAfter(slots, slots[NextAfter(slots, cursor)].stamp) > NextAfter(slots, cursor)
  {
  }

  /** A public operation, called from outside any eviction. */
  function Do(s: State, op: Op, budget: int): State {
    if op.Track? || op.Enforce? || (op.Release? && op.lease in s.unreleased) then EnforceFrom(Apply(s, op), budget, -1)
    else Apply(s, op)
  }
}
