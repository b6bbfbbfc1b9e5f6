/** Histories of timed operations, sequential models, and what it means for a history to be linearizable. */
module Linearizability {
  import opened FiniteSets

  datatype Operation<V> = Operation(clientId: int, input: V, call: int, output: V, ret: int)

  /** A sequential model. `step` says whether the model accepts an operation and gives the next state. */
  datatype Model<!S, !V> = Model(init: S, step: (S, V, V) -> (bool, S), equal: (S, S) -> bool)

  ghost predicate WellTimed<V>(h: seq<Operation<V>>) {
    forall i | 0 <= i < |h| :: h[i].call <= h[i].ret
  }

  /** What the search needs of `equal`: states it identifies accept the same continuations. */
  ghost predicate EqualIsCongruence<S(!new), V(!new)>(m: Model<S, V>) {
    forall a, b, i, o :: m.equal(a, b) && m.step(a, i, o).0 ==>
      m.step(b, i, o).0 && m.equal(m.step(a, i, o).1, m.step(b, i, o).1)
  }

  /** An operation precedes another only when it returned strictly before the other was called. */
  ghost predicate RespectsRealTime<V>(h: seq<Operation<V>>, p: seq<nat>)
    requires InRange(p, |h|)
  {
    forall i, j | 0 <= i < j < |p| :: !(h[p[j]].ret < h[p[i]].call)
  }

  function StepOf<S, V>(m: Model<S, V>, h: seq<Operation<V>>, st: S, id: nat): (bool, S)
    requires id < |h|
  {
    m.step(st, h[id].input, h[id].output)
  }

  /** The model accepts the operations `p` of `h`, in that order, from state `st`. */
  ghost predicate Accepts<S, V>(m: Model<S, V>, h: seq<Operation<V>>, st: S, p: seq<nat>)
    requires InRange(p, |h|)
  {
    p == [] || (StepOf(m, h, st, p[0]).0 && Accepts(m, h, StepOf(m, h, st, p[0]).1, p[1..]))
  }

  /** The state that the operations `p` lead to. */
  ghost function StateAfter<S, V>(m: Model<S, V>, h: seq<Operation<V>>, st: S, p: seq<nat>): S
    requires InRange(p, |h|)
    decreases |p|
  {
    if p == [] then st else StateAfter(m, h, StepOf(m, h, st, p[0]).1, p[1..])
  }

  lemma {:induction false} AcceptsSplit<S, V>(m: Model<S, V>, h: seq<Operation<V>>, st: S, p: seq<nat>, q: seq<nat>)
    requires InRange(p, |h|) && InRange(q, |h|)
    ensures InRange(p + q, |h|)
    ensures Accepts(m, h, st, p + q) <==> Accepts(m, h, st, p) && Accepts(m, h, StateAfter(m, h, st, p), q)
    ensures StateAfter(m, h, st, p + q) == StateAfter(m, h, StateAfter(m, h, st, p), q)
    decreases |p|
  {
    if p == [] {
      assert p + q == q;
    } else {
      AcceptsSplit(m, h, StepOf(m, h, st, p[0]).1, p[1..], q);
      assert (p + q)[1..] == p[1..] + q;
    }
  }

  ghost predicate Linearizes<S, V>(m: Model<S, V>, h: seq<Operation<V>>, p: seq<nat>) {
    && |p| == |h| && InRange(p, |h|) && Distinct(p)
    && RespectsRealTime(h, p)
    && Accepts(m, h, m.init, p)
  }

  ghost predicate Linearizable<S, V>(m: Model<S, V>, h: seq<Operation<V>>) {
    exists p :: Linearizes(m, h, p)
  }

  /** A linearization of some of the operations: everything that precedes a chosen operation was chosen earlier. */
  ghost predicate PartiallyLinearizes<S, V>(m: Model<S, V>, h: seq<Operation<V>>, p: seq<nat>) {
    && InRange(p, |h|) && Distinct(p)
    && (forall j, x: nat | 0 <= j < |p| && x < |h| && h[x].ret < h[p[j]].call :: x in p[..j])
    && Accepts(m, h, m.init, p)
  }

  /** A partial linearization of every operation is a linearization, and the other way round. */
  lemma FullPartialIsLinearization<S, V>(m: Model<S, V>, h: seq<Operation<V>>, p: seq<nat>)
    requires WellTimed(h)
    ensures Linearizes(m, h, p) <==> PartiallyLinearizes(m, h, p) && |p| == |h|
  {
    if Linearizes(m, h, p) {
      FullIsOnto(p, |h|);
      forall j, x: nat | 0 <= j < |p| && x < |h| && h[x].ret < h[p[j]].call
        ensures x in p[..j]
      {
        assert x in p;
        var i :| 0 <= i < |p| && p[i] == x;
        assert i < j;
        assert p[..j][i] == x;
      }
    }
  }

  /** Two histories with the same operations in the same real-time order have the same linearizations. */
  lemma SameOrderSameLinearizations<S, V>(m: Model<S, V>, g: seq<Operation<V>>, h: seq<Operation<V>>, p: seq<nat>)
    requires SameUpToTime(g, h)
    ensures Linearizes(m, g, p) <==> Linearizes(m, h, p)
    ensures PartiallyLinearizes(m, g, p) <==> PartiallyLinearizes(m, h, p)
  {
    if InRange(p, |h|) {
      SameAccepts(m, g, h, m.init, p);
    }
  }

  ghost predicate SameUpToTime<V>(g: seq<Operation<V>>, h: seq<Operation<V>>) {
    && |g| == |h|
    && (forall i | 0 <= i < |g| :: g[i].input == h[i].input && g[i].output == h[i].output)
    && (forall i, j | 0 <= i < |g| && 0 <= j < |g| :: g[i].ret < g[j].call <==> h[i].ret < h[j].call)
  }

  lemma {:induction false} SameAccepts<S, V>(
        m: Model<S, V>, g: seq<Operation<V>>, h: seq<Operation<V>>, st: S, p: seq<nat>)
    requires SameUpToTime(g, h) && InRange(p, |h|)
    ensures Accepts(m, g, st, p) <==> Accepts(m, h, st, p)
    decreases |p|
  {
    if p != [] {
      SameAccepts(m, g, h, StepOf(m, h, st, p[0]).1, p[1..]);
    }
  }
}
