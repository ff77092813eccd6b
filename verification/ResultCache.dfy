/** The controller of the result cache: entries and leases updated in place, callbacks run in the middle of eviction. */
module ResultCache {
  import opened BudgetModel
  import opened BudgetProofs

  /** A lease's own object; only its identity counts. */
  class Token {
    ghost const number: nat
    ghost const home: TokenSet

    constructor (ghost number: nat, ghost home: TokenSet)
      ensures this.number == number && this.home == home
    {
      this.number, this.home := number, home;
    }
  }

  /** The tokens out for a key since it was last removed. */
  class TokenSet {
    ghost const key: Key
    var tokens: set<Token>

    constructor (ghost key: Key)
      ensures this.key == key && tokens == {}
    {
      this.key, tokens := key, {};
    }
  }

  /** What a release function remembers. */
  datatype Lease = Lease(key: Key, token: Token, tokens: TokenSet)

  function KeysOf(leases: seq<Lease>): (r: seq<Key>)
    ensures |r| == |leases|
  {
    seq(|leases|, n requires 0 <= n < |leases| => leases[n].key)
  }

  class ResultCacheController {
    const budget: int
    var slots: seq<Slot>
    var clock: nat
    var leases: map<Key, TokenSet>
    var retained: int
    var enforcing: bool
    /** The release functions handed out, in order. */
    var issued: seq<Lease>

    /** Every token set a release function remembers. */
    ghost var sets: set<TokenSet>

    ghost predicate Numbered()
      reads this`issued, this`sets
    {
      forall n | 0 <= n < |issued| ::
        issued[n].tokens in sets && issued[n].token.number == n && issued[n].token.home == issued[n].tokens
        && issued[n].tokens.key == issued[n].key
    }

    ghost predicate Known(tok: Token, home: TokenSet)
      reads this`issued
    {
      tok.home == home && tok.number < |issued| && issued[tok.number].token == tok
    }

    /** Tokens are numbered by the pin that made them and stay in the set they were put in. */
    ghost predicate Linked()
      reads this`issued, this`leases, this`sets, sets
    {
      && Numbered()
      && (forall t: TokenSet, tok: Token | t in sets && tok in t.tokens :: Known(tok, t))
      && (forall k | k in leases :: leases[k] in sets && leases[k].key == k && leases[k].tokens != {})
    }

    ghost predicate Live(n: nat)
      requires n < |issued|
      reads this`issued, issued[n].tokens
    {
      issued[n].token in issued[n].tokens.tokens
    }

    ghost predicate Holds(n: nat)
      requires n < |issued|
      reads this`issued, this`leases, issued[n].tokens
    {
      Live(n) && issued[n].key in leases && leases[issued[n].key] == issued[n].tokens
    }

    ghost function Unreleased(): set<nat>
      requires Numbered()
      reads this`issued, this`sets, sets
    {
      set n: nat | n < |issued| && Live(n)
    }

    ghost function Held(): set<nat>
      requires Numbered()
      reads this`issued, this`leases, this`sets, sets
    {
      set n: nat | n < |issued| && Holds(n)
    }

    ghost function View(): State
      requires Numbered()
      reads this`slots, this`clock, this`retained, this`issued, this`leases, this`sets, sets
    {
      State(slots, clock, retained, KeysOf(issued), Unreleased(), Held())
    }

    ghost predicate Valid()
      reads this`slots, this`clock, this`retained, this`issued, this`leases, this`sets, sets
    {
      Linked() && View().Valid() && View().Balanced()
    }

    predicate IsLeased(k: Key)
      reads this, leases.Values
    {
      k in leases && leases[k].tokens != {}
    }

    /** A key is protected exactly when some pin of it since its last removal is not released. */
    lemma LeasedIff(k: Key)
      requires Linked()
      ensures IsLeased(k) <==> View().Leased(k)
    {
      if IsLeased(k) {
        var tok :| tok in leases[k].tokens;
        assert Known(tok, leases[k]);
        assert Holds(tok.number) && View().pins[tok.number] == k;
      }
    }

    constructor (budget: int)
      ensures Valid() && this.budget == budget && !enforcing
      ensures View() == State([], 0, 0, [], {}, {})
    {
      this.budget := budget;
      slots, clock, leases, retained, enforcing, issued, sets := [], 0, map[], 0, false, [], {};
    }

    method Transfer(key: Key, evict: seq<Op>) returns (found: bool)
      requires Linked()
      modifies this`slots
      ensures Linked() && View() == Apply(old(View()), Op.Transfer(key, evict))
      ensures found == exists i :: 0 <= i < |old(slots)| && old(slots)[i].entry.key == key
    {
      var i := Find(slots, key);
      if i == |slots| { return false; }
      slots := slots[i := slots[i].(entry := slots[i].entry.(evict := evict))];
      return true;
    }

    method Touch(key: Key)
      requires Valid()
      modifies this`slots, this`clock
      ensures Linked() && View() == Apply(old(View()), Op.Touch(key))
    {
      var i := Find(slots, key);
      if i < |slots| {
        var entry := slots[i].entry;
        DropValid(View(), i, View().(slots := DropAt(slots, i)));
        slots := DropAt(slots, i);
        slots, clock := slots + [Slot(clock, entry)], clock + 1;
      }
    }

    /** One more token in the set of a key, old or new, and one more release function. */
    twostate predicate PinStep(key: Key, new token: Token, new tokens: TokenSet)
      reads this, sets, tokens
    {
      && issued == old(issued) + [Lease(key, token, tokens)]
      && sets == old(sets) + {tokens}
      && leases == old(leases)[key := tokens]
      && token.number == |old(issued)| && token.home == tokens && tokens.key == key
      && fresh(token) && (fresh(tokens) || (key in old(leases) && old(leases)[key] == tokens))
      && tokens.tokens == (if fresh(tokens) then {} else old(tokens.tokens)) + {token}
      && (forall t | t in old(sets) && t != tokens :: t.tokens == old(t.tokens))
      && (fresh(tokens) ==> key !in old(leases))
    }

    twostate lemma PinLinked(key: Key, new token: Token, new tokens: TokenSet)
      requires old(Linked()) && PinStep(key, token, tokens)
      ensures Linked()
    {
      forall t: TokenSet, tok: Token | t in sets && tok in t.tokens ensures Known(tok, t) {
        if tok != token { assert t in old(sets) && tok in old(t.tokens) && old(Known(tok, t)); }
      }
    }

    twostate lemma PinView(key: Key, new token: Token, new tokens: TokenSet)
      requires old(Linked()) && Linked() && PinStep(key, token, tokens)
      ensures View() == Apply(old(View()), Op.Pin(key)).(slots := slots, clock := clock, retained := retained)
    {
      var n := |old(issued)|;
      forall m | 0 <= m < n ensures Live(m) == old(Live(m)) && Holds(m) == old(Holds(m)) {
        assert issued[m] == old(issued[m]) && issued[m].token != token;
      }
      assert issued[n] == Lease(key, token, tokens) && Live(n) && Holds(n);
      assert View().pins == old(View()).pins + [key];
      assert View().unreleased == old(View()).unreleased + {n};
      assert View().held == old(View()).held + {n};
    }

    /** Protects a key; the answer is the number of the release function. */
    method Pin(key: Key) returns (lease: nat)
      requires Linked()
      modifies this`leases, this`issued, this`sets, sets
      ensures Linked() && fresh(sets - old(sets))
      ensures lease == |old(issued)| && View() == Apply(old(View()), Op.Pin(key))
    {
      lease := |issued|;
      var tokens;
      if key in leases { tokens := leases[key]; } else { tokens := new TokenSet(key); }
      var token := new Token(lease, tokens);
      leases := leases[key := tokens];
      tokens.tokens := tokens.tokens + {token};
      issued, sets := issued + [Lease(key, token, tokens)], sets + {tokens};
      PinLinked(key, token, tokens);
      PinView(key, token, tokens);
    }

    /** One token leaves its set; a set that is current and empty leaves the map. */
    twostate predicate DropStep(lease: nat)
      reads this, sets
    {
      && lease < |issued| && issued == old(issued) && sets == old(sets) && issued[lease].tokens in sets
      && var l := issued[lease];
      && l.tokens.tokens == old(l.tokens.tokens) - {l.token}
      && (forall t | t in sets && t != l.tokens :: t.tokens == old(t.tokens))
      && leases == if l.tokens.tokens == {} && l.key in old(leases) && old(leases)[l.key] == l.tokens
                   then old(leases) - {l.key} else old(leases)
    }

    twostate lemma DropLinked(lease: nat)
      requires old(Linked()) && DropStep(lease)
      ensures Linked()
    {
      forall t: TokenSet, tok: Token | t in sets && tok in t.tokens ensures Known(tok, t) {
        assert tok in old(t.tokens) && old(Known(tok, t));
      }
    }

    twostate lemma DropView(lease: nat)
      requires old(Linked()) && Linked() && DropStep(lease)
      ensures Unreleased() == old(Unreleased()) - {lease} && Held() == old(Held()) - {lease}
    {
      assert forall m | 0 <= m < |issued| && issued[m].token == issued[lease].token :: m == lease;
      assert forall m | 0 <= m < |issued| :: Live(m) <==> old(Live(m)) && m != lease;
      assert forall m | 0 <= m < |issued| :: Holds(m) <==> old(Holds(m)) && m != lease;
    }

    /** What calling a release function does before it enforces: false when the lease was gone already. */
    method Drop(lease: nat) returns (dropped: bool)
      requires Linked()
      modifies this`leases, sets
      ensures Linked() && View() == Apply(old(View()), Op.Release(lease))
      ensures dropped == (lease in old(View()).unreleased)
    {
      if lease >= |issued| || issued[lease].token !in issued[lease].tokens.tokens { return false; }
      var key, tokens := issued[lease].key, issued[lease].tokens;
      tokens.tokens := tokens.tokens - {issued[lease].token};
      if tokens.tokens == {} && key in leases && leases[key] == tokens { leases := leases - {key}; }
      DropLinked(lease);
      DropView(lease);
      return true;
    }

    /** Forgets a key and its leases; its release functions no longer protect anything. */
    method Remove(key: Key)
      requires Linked()
      modifies this`slots, this`retained, this`leases
      ensures Linked() && View() == Apply(old(View()), Op.Remove(key))
    {
      var i := Find(slots, key);
      if i < |slots| { retained := retained - slots[i].entry.bytes; }
      slots, leases := DropAt(slots, i), leases - {key};
    }

    /** Either the whole operation or, inside an eviction, the operation without its enforcement. */
    ghost function Expected(s: State, op: Op): State
      reads this
    {
      if enforcing then Apply(s, op) else Do(s, op, budget)
    }

    method Track(entry: Entry)
      requires Valid()
      modifies this, sets
      ensures Valid() && enforcing == old(enforcing) && fresh(sets - old(sets))
      ensures View() == old(Expected(View(), Op.Track(entry)))
      decreases !enforcing, 1
    {
      ApplyBalanced(View(), Op.Track(entry));
      var i := Find(slots, entry.key);
      retained := retained + entry.bytes - BytesAt(slots, entry.key);
      if i < |slots| { slots := slots[i := slots[i].(entry := entry)]; }
      else { slots, clock := slots + [Slot(clock, entry)], clock + 1; }
      assert View() == Apply(old(View()), Op.Track(entry));
      var _, _ := Enforce();
    }

    /** What a release function does. */
    method Release(lease: nat)
      requires Valid()
      modifies this, sets
      ensures Valid() && enforcing == old(enforcing) && fresh(sets - old(sets))
      ensures View() == old(Expected(View(), Op.Release(lease)))
      decreases !enforcing, 1
    {
      ApplyBalanced(View(), Op.Release(lease));
      var dropped := Drop(lease);
      if dropped { var _, _ := Enforce(); }
    }

    /** Evicts from the old end while over budget; does nothing when called from a callback. */
    method Enforce() returns (bytes: int, overBudget: bool)
      requires Valid()
      modifies this, sets
      ensures Valid() && enforcing == old(enforcing) && fresh(sets - old(sets))
      ensures View() == if enforcing then old(View()) else EnforceFrom(old(View()), budget, -1)
      ensures bytes == Bytes(slots) && overBudget == (bytes > budget)
      decreases !enforcing, 0
    {
      if !enforcing {
        enforcing := true;
        ghost var final := EnforceFrom(View(), budget, -1);
        var cursor := -1;
        var i := NextAfter(slots, cursor);
        while i < |slots| && retained > budget
          invariant Valid() && enforcing && fresh(sets - old(sets))
          invariant i == NextAfter(slots, cursor)
          invariant EnforceFrom(View(), budget, cursor) == final
          decreases Weight(slots), |slots| - i
        {
          EnforceStep(View(), budget, cursor, i);
          var slot := slots[i];
          LeasedIff(slot.entry.key);
          if IsLeased(slot.entry.key) {
            NextAdvances(slots, cursor);
          } else {
            Evict(i);
          }
          cursor := slot.stamp;
          i := NextAfter(slots, cursor);
        }
        EnforceStep(View(), budget, cursor, i);
        enforcing := false;
      }
      return retained, retained > budget;
    }

    /** Drops a slot and runs its callback. */
    method Evict(i: nat)
      requires Valid() && enforcing && i < |slots|
      modifies this, sets
      ensures Valid() && enforcing && fresh(sets - old(sets))
      ensures View() == Evicted(old(View()), i)
      decreases !enforcing, 4
    {
      hide Weight, Bytes, RunScript, Find;
      DroppedBalanced(View(), i);
      var entry := slots[i].entry;
      slots, retained := DropAt(slots, i), retained - entry.bytes;
      assert View() == Dropped(old(View()), i);
      Callback(entry.evict);
    }

    method Callback(script: seq<Op>)
      requires Valid() && enforcing
      modifies this, sets
      ensures Valid() && enforcing && fresh(sets - old(sets))
      ensures View() == RunScript(old(View()), script)
      decreases !enforcing, 3
    {
      for k := 0 to |script|
        invariant Valid() && enforcing && fresh(sets - old(sets))
        invariant View() == RunScript(old(View()), script[..k])
      {
        assert script[..k + 1][..k] == script[..k];
        Execute(script[k]);
      }
      assert script[..|script|] == script;
    }

    method Execute(op: Op)
      requires Valid() && enforcing
      modifies this, sets
      ensures Valid() && enforcing && fresh(sets - old(sets))
      ensures View() == Apply(old(View()), op)
      decreases !enforcing, 2
    {
      ApplyBalanced(View(), op);
      match op {
        case Track(entry) => Track(entry);
        case Transfer(key, evict) => var _ := Transfer(key, evict);
        case Touch(key) => Touch(key);
        case Pin(key) => var _ := Pin(key);
        case Release(lease) => Release(lease);
        case Remove(key) => Remove(key);
        case Enforce => var _, _ := Enforce();
      }
    }
  }
}
