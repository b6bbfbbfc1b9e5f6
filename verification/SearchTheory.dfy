/**
 * What the search of the checker establishes, apart from how it stores its list, stack and cache.
 * A configuration is the set of operations linearized so far together with the model's state.
 */
module SearchTheory {
  import opened Options
  import opened FiniteSets
  import opened Linearizability

  /** Operation `id` can be linearized next: everything that precedes it in real time is done. */
  ghost predicate Enabled<V>(h: seq<Operation<V>>, done: set<nat>, id: nat) {
    && id < |h| && id !in done
    && forall x: nat | x < |h| && h[x].ret < h[id].call :: x in done
  }

  /** The operations `q` can be linearized one after the other from configuration (done, st). */
  ghost predicate Extends<S, V>(m: Model<S, V>, h: seq<Operation<V>>, done: set<nat>, st: S, q: seq<nat>)
    decreases |q|
  {
    q == [] ||
    (&& Enabled(h, done, q[0])
     && StepOf(m, h, st, q[0]).0
     && Extends(m, h, done + {q[0]}, StepOf(m, h, st, q[0]).1, q[1..]))
  }

  ghost predicate ClosedFrom<V>(h: seq<Operation<V>>, done: set<nat>, q: seq<nat>)
    requires InRange(q, |h|)
  {
    forall j, x: nat | 0 <= j < |q| && x < |h| && h[x].ret < h[q[j]].call :: x in done || x in q[..j]
  }

  lemma {:induction false} ExtendsMeaning<S, V>(
        m: Model<S, V>, h: seq<Operation<V>>, done: set<nat>, st: S, q: seq<nat>)
    ensures Extends(m, h, done, st, q) <==>
      InRange(q, |h|) && Distinct(q) && (forall x | x in q :: x !in done) && ClosedFrom(h, done, q) &&
          Accepts(m, h, st, q)
    decreases |q|
  {
    if q != [] && q[0] < |h| {
      var r := q[1..];
      ExtendsMeaning(m, h, done + {q[0]}, StepOf(m, h, st, q[0]).1, r);
      assert q == [q[0]] + r;
      assert InRange(q, |h|) <==> InRange(r, |h|);
      if InRange(q, |h|) {
        ClosedTail(h, done, q);
      }
      assert Distinct(q) <==> Distinct(r) && q[0] !in r by {
        if Distinct(r) && q[0] !in r {
          forall i, j | 0 <= i < j < |q| ensures q[i] != q[j] {
            assert q[j] == r[j - 1];
            assert q[j] in r;
            if i > 0 { assert q[i] == r[i - 1]; }
          }
        }
        if Distinct(q) {
          forall i, j | 0 <= i < j < |r| ensures r[i] != r[j] {
            assert r[i] == q[i + 1] && r[j] == q[j + 1];
          }
        }
      }
    }
  }

  lemma ClosedTail<V>(h: seq<Operation<V>>, done: set<nat>, q: seq<nat>)
    requires q != [] && InRange(q, |h|)
    ensures ClosedFrom(h, done, q) <==>
      (forall x: nat | x < |h| && h[x].ret < h[q[0]].call :: x in done) && ClosedFrom(h, done + {q[0]}, q[1..])
  {
    var r := q[1..];
    if ClosedFrom(h, done, q) {
      assert q[..0] == [];
      forall j, x: nat | 0 <= j < |r| && x < |h| && h[x].ret < h[r[j]].call
        ensures x in done + {q[0]} || x in r[..j]
      {
        assert r[j] == q[j + 1];
        assert q[..j + 1] == [q[0]] + r[..j];
      }
    }
    if (forall x: nat | x < |h| && h[x].ret < h[q[0]].call :: x in done) && ClosedFrom(h, done + {q[0]}, r) {
      forall j, x: nat | 0 <= j < |q| && x < |h| && h[x].ret < h[q[j]].call
        ensures x in done || x in q[..j]
      {
        if j > 0 {
          assert q[j] == r[j - 1];
          assert q[..j] == [q[0]] + r[..j - 1];
        }
      }
    }
  }

  /** From nothing, the extensions are exactly the partial linearizations. */
  lemma ExtensionsArePartialLinearizations<S, V>(m: Model<S, V>, h: seq<Operation<V>>, q: seq<nat>)
    ensures Extends(m, h, {}, m.init, q) <==> PartiallyLinearizes(m, h, q)
  {
    ExtendsMeaning(m, h, {}, m.init, q);
  }

  /** The longest recorded partial linearization for each operation, if any. */
  type Longest = seq<Option<seq<nat>>>

  /** Every operation of `done` and `q` has a record at least as long as `done` and `q` together. */
  ghost predicate Recorded(longest: Longest, done: set<nat>, q: seq<nat>) {
    forall i: nat | i < |longest| && (i in done || i in q) ::
      longest[i].Some? && |longest[i].value| >= |done| + |q|
  }

  /**
   * Nothing is left to find from (done, st): no continuation reaches all operations and,
   * if records are kept, no continuation beats a record.
   */
  ghost predicate Exhausted<S, V>(
        m: Model<S, V>, h: seq<Operation<V>>, partials: bool, longest: Longest, done: set<nat>, st: S)
  {
    forall q | Extends(m, h, done, st, q) ::
      |done| + |q| < |h| && (partials ==> Recorded(longest, done, q))
  }

  /** Linearizing `id` next from (done, st) leads nowhere new. */
  ghost predicate Tried<S, V>(
        m: Model<S, V>, h: seq<Operation<V>>, partials: bool, longest: Longest, done: set<nat>, st: S, id: nat)
    requires id < |h|
  {
    StepOf(m, h, st, id).0 ==> Exhausted(m, h, partials, longest, done + {id}, StepOf(m, h, st, id).1)
  }

  ghost predicate NoShorter(was: Longest, now: Longest) {
    && |now| == |was|
    && forall i | 0 <= i < |was| && was[i].Some? :: now[i].Some? && |now[i].value| >= |was[i].value|
  }

  lemma ExhaustedMono<S, V>(
        m: Model<S, V>, h: seq<Operation<V>>, partials: bool, was: Longest, now: Longest, done: set<nat>, st: S)
    requires Exhausted(m, h, partials, was, done, st) && NoShorter(was, now)
    ensures Exhausted(m, h, partials, now, done, st)
  {
    forall q | Extends(m, h, done, st, q)
      ensures |done| + |q| < |h| && (partials ==> Recorded(now, done, q))
    {
      if partials {
        assert Recorded(was, done, q);
      }
    }
  }

  /** When every enabled operation has been tried, the configuration itself is exhausted. */
  lemma ExhaustedFromTries<S, V>(
        m: Model<S, V>, h: seq<Operation<V>>, partials: bool, longest: Longest, done: set<nat>, st: S)
    requires |done| < |h|
    requires partials ==> Recorded(longest, done, [])
    requires forall id | Enabled(h, done, id) :: Tried(m, h, partials, longest, done, st, id)
    ensures Exhausted(m, h, partials, longest, done, st)
  {
    forall q | Extends(m, h, done, st, q)
      ensures |done| + |q| < |h| && (partials ==> Recorded(longest, done, q))
    {
      if q != [] {
        var id, r := q[0], q[1..];
        assert Tried(m, h, partials, longest, done, st, id);
        assert Extends(m, h, done + {id}, StepOf(m, h, st, id).1, r);
        assert |done + {id}| == |done| + 1;
        assert q == [id] + r;
        if partials {
          assert Recorded(longest, done + {id}, r);
        }
      }
    }
  }

  /** A state that `equal` identifies with an exhausted one is exhausted: this is what the cache relies on. */
  lemma ExhaustedByEqual<S(!new), V(!new)>(m: Model<S, V>, h: seq<Operation<V>>, partials: bool, longest: Longest,
                                           done: set<nat>, a: S, b: S)
    requires EqualIsCongruence(m) && m.equal(a, b)
    requires Exhausted(m, h, partials, longest, done, b)
    ensures Exhausted(m, h, partials, longest, done, a)
  {
    forall q | Extends(m, h, done, a, q)
      ensures |done| + |q| < |h| && (partials ==> Recorded(longest, done, q))
    {
      EqualExtends(m, h, done, a, b, q);
    }
  }

  lemma {:induction false} EqualExtends<S(!new), V(!new)>(
        m: Model<S, V>, h: seq<Operation<V>>, done: set<nat>, a: S, b: S, q: seq<nat>)
    requires EqualIsCongruence(m) && m.equal(a, b) && Extends(m, h, done, a, q)
    ensures Extends(m, h, done, b, q)
    decreases |q|
  {
    if q != [] {
      EqualExtends(m, h, done + {q[0]}, StepOf(m, h, a, q[0]).1, StepOf(m, h, b, q[0]).1, q[1..]);
    }
  }
}
