/** The checker's cache of visited configurations, hashed by their bitsets. */
module SearchCache {
  import opened Linearizability
  import opened Bitset

  datatype CacheEntry<S> = CacheEntry(linearized: array<bv64>, state: S)

  /** A 64-bit hash, as a map key. */
  datatype HashKey = HashKey(value: bv64)

  function KeyOf(words: seq<bv64>): HashKey { HashKey(HashOf(words)) }

  /** What a cache holds, by hash: the words of each bitset with the state. */
  type Contents<S> = map<HashKey, seq<(seq<bv64>, S)>>

  function Lookup<T>(m: map<HashKey, seq<T>>, hash: HashKey): seq<T> {
    if hash in m then m[hash] else []
  }

  ghost predicate StandsFor<S>(w: (seq<bv64>, S), c: (set<nat>, S)) {
    c == (Members(w.0), w.1)
  }

  ghost predicate Filed<S>(held: Contents<S>, words: nat, hash: HashKey, i: nat)
    requires i < |Lookup(held, hash)|
  {
    var w := Lookup(held, hash)[i].0;
    |w| == words && KeyOf(w) == hash
  }

  ghost predicate Holds<S>(held: Contents<S>, c: (set<nat>, S)) {
    exists hash, i: nat :: i < |Lookup(held, hash)| && StandsFor(Lookup(held, hash)[i], c)
  }

  /** The contents are filed by hash, and stand for exactly the configurations `configs`. */
  ghost predicate Contains<S>(held: Contents<S>, words: nat, configs: set<(set<nat>, S)>) {
    && (forall hash, i: nat | i < |Lookup(held, hash)| :: Filed(held, words, hash, i))
    && (forall hash, i: nat | i < |Lookup(held, hash)| ::
        (Members(Lookup(held, hash)[i].0), Lookup(held, hash)[i].1) in configs)
    && (forall c | c in configs :: Holds(held, c))
  }

  ghost function Inserted<S>(held: Contents<S>, w: seq<bv64>, st: S): Contents<S> {
    held[KeyOf(w) := Lookup(held, KeyOf(w)) + [(w, st)]]
  }

  /** What is looked up after an insertion was there before, or is what was inserted. */
  lemma InsertedAt<S>(held: Contents<S>, w: seq<bv64>, st: S, hash: HashKey, i: nat)
    ensures i < |Lookup(held, hash)| ==>
      i < |Lookup(Inserted(held, w, st), hash)| && Lookup(Inserted(held, w, st), hash)[i] == Lookup(held, hash)[i]
    ensures |Lookup(held, hash)| <= i < |Lookup(Inserted(held, w, st), hash)| ==>
      hash == KeyOf(w) && Lookup(Inserted(held, w, st), hash)[i] == (w, st)
    ensures var h, n := KeyOf(w), |Lookup(held, KeyOf(w))|;
      n < |Lookup(Inserted(held, w, st), h)| && Lookup(Inserted(held, w, st), h)[n] == (w, st)
  {
    hide KeyOf;
  }

  lemma InsertContains<S>(held: Contents<S>, words: nat, configs: set<(set<nat>, S)>, w: seq<bv64>, st: S)
    requires Contains(held, words, configs) && |w| == words
    ensures Contains(Inserted(held, w, st), words, configs + {(Members(w), st)})
  {
    hide Members, KeyOf, Lookup, Inserted;
    var now := Inserted(held, w, st);
    forall c | c in configs + {(Members(w), st)} ensures Holds(now, c) {
      if c in configs {
        assert Holds(held, c);
        var g, i: nat :| i < |Lookup(held, g)| && StandsFor(Lookup(held, g)[i], c);
        InsertedAt(held, w, st, g, i);
        assert StandsFor(Lookup(now, g)[i], c);
      } else {
        InsertedAt(held, w, st, KeyOf(w), 0);
        assert StandsFor(Lookup(now, KeyOf(w))[|Lookup(held, KeyOf(w))|], c);
      }
    }
    forall g, i: nat | i < |Lookup(now, g)|
      ensures Filed(now, words, g, i) &&
          (Members(Lookup(now, g)[i].0), Lookup(now, g)[i].1) in configs + {(Members(w), st)}
    {
      InsertedAt(held, w, st, g, i);
      if i < |Lookup(held, g)| {
        assert Filed(held, words, g, i);
      }
    }
  }

  /** Only the bucket of its own hash can hold a bitset. */
  lemma OnlyInItsBucket<S>(held: Contents<S>, words: nat, configs: set<(set<nat>, S)>, w: seq<bv64>, st: S)
    requires Contains(held, words, configs) && |w| == words && (Members(w), st) in configs
    ensures (w, st) in Lookup(held, KeyOf(w))
  {
    hide Members, HashOf;
    assert Holds(held, (Members(w), st));
    var g, i: nat :| i < |Lookup(held, g)| && StandsFor(Lookup(held, g)[i], (Members(w), st));
    assert Filed(held, words, g, i);
    SameMembers(Lookup(held, g)[i].0, w);
  }

  class Cache<S> {
    const words: nat
    var buckets: map<HashKey, seq<CacheEntry<S>>>
    /** All configurations ever inserted. */
    ghost var configs: set<(set<nat>, S)>
    ghost var held: Contents<S>
    ghost var Repr: set<array<bv64>>

    constructor (words: nat)
      ensures Valid() && configs == {} && Repr == {} && this.words == words
    {
      this.words, buckets, configs, held, Repr := words, map[], {}, map[], {};
    }

    /** No bitset in the cache has been written to since it was inserted. */
    ghost predicate Frozen()
      reads this, Repr
    {
      forall hash :: |Lookup(buckets, hash)| == |Lookup(held, hash)| && forall i: nat | i < |Lookup(buckets, hash)| ::
        && Lookup(buckets, hash)[i].linearized in Repr
        && Lookup(buckets, hash)[i].linearized[..] == Lookup(held, hash)[i].0
        && Lookup(buckets, hash)[i].state == Lookup(held, hash)[i].1
    }

    ghost predicate Valid()
      reads this, Repr
    {
      Frozen() && Contains(held, words, configs)
    }

    /** Whether some inserted configuration has the same operations and a state `equal` identifies with this one. */
    method CacheContains<V>(model: Model<S, V>, entry: CacheEntry<S>) returns (b: bool, ghost found: S)
      requires Valid() && entry.linearized.Length == words
      ensures b ==> (Members(entry.linearized[..]), found) in configs && model.equal(entry.state, found)
      ensures !b ==> forall s | (Members(entry.linearized[..]), s) in configs :: !model.equal(entry.state, s)
    {
      hide Members, HashOf, Filed;
      b, found := false, entry.state;
      var value := Hash(entry.linearized);
      var hash := HashKey(value);
      var bucket := Lookup(buckets, hash);
      ghost var w := entry.linearized[..];
      ghost var inside := Lookup(held, hash);
      for i := 0 to |bucket|
        invariant forall k | 0 <= k < i && inside[k].0 == w :: !model.equal(entry.state, inside[k].1)
      {
        var same := Equals(entry.linearized, bucket[i].linearized);
        if same && model.equal(entry.state, bucket[i].state) {
          b, found := true, bucket[i].state;
          assert (Members(inside[i].0), inside[i].1) in configs;
          return;
        }
      }
      forall s | (Members(w), s) in configs ensures !model.equal(entry.state, s) {
        OnlyInItsBucket(held, words, configs, w, s);
      }
    }

    method Insert(entry: CacheEntry<S>)
      requires Valid() && entry.linearized.Length == words
      modifies this
      ensures Valid() && Repr == old(Repr) + {entry.linearized}
      ensures configs == old(configs) + {(Members(entry.linearized[..]), entry.state)}
    {
      hide Members, HashOf, Contains;
      var value := Hash(entry.linearized);
      var hash := HashKey(value);
      ghost var w, st := entry.linearized[..], entry.state;
      InsertContains(held, words, configs, w, st);
      buckets := buckets[hash := Lookup(buckets, hash) + [entry]];
      held := Inserted(held, w, st);
      configs := configs + {(Members(w), st)};
      Repr := Repr + {entry.linearized};
      assert hash == KeyOf(w);
      assert Lookup(buckets, hash) == old(Lookup(buckets, hash)) + [entry] &&
          Lookup(held, hash) == old(Lookup(held, hash)) + [(w, st)];
      assert forall g | g != hash ::
          Lookup(buckets, g) == old(Lookup(buckets, g)) && Lookup(held, g) == old(Lookup(held, g));
      assert Frozen();
    }
  }
}
