/** The visualizer's replay of the partial linearizations of one partition. */
module Visualization {
  import opened Options
  import opened FiniteSets
  import opened Linearizability
  import opened SearchTheory
  import opened SearchPath
  import opened LinkedEntries

  datatype Step<S> = Step(index: nat, state: S)

  /** The replay, or the panic that the source raises when the model rejects a step. */
  datatype Replay<S> = Panic | Done(linearizations: seq<seq<Step<S>>>, largest: map<nat, nat>)

  /** The operations `p`, each with the state after it. */
  ghost predicate IsReplay<S, V>(m: Model<S, V>, h: seq<Operation<V>>, st: S, p: seq<nat>, r: seq<Step<S>>)
    requires InRange(p, |h|)
    decreases |p|
  {
    if p == [] then r == []
    else
      var t := StepOf(m, h, st, p[0]).1;
      r != [] && r[0] == Step(p[0], t) && IsReplay(m, h, t, p[1..], r[1..])
  }

  lemma {:induction false} ReplaySnoc<S, V>(
        m: Model<S, V>, h: seq<Operation<V>>, st: S, p: seq<nat>, r: seq<Step<S>>, id: nat)
    requires InRange(p, |h|) && id < |h| && IsReplay(m, h, st, p, r)
    ensures InRange(p + [id], |h|)
    ensures var t := StepOf(m, h, StateAfter(m, h, st, p), id).1;
      IsReplay(m, h, st, p + [id], r + [Step(id, t)]) && StateAfter(m, h, st, p + [id]) == t
    decreases |p|
  {
    var s := r + [Step(id, StepOf(m, h, StateAfter(m, h, st, p), id).1)];
    if p == [] {
      assert (p + [id])[1..] == [] && s[1..] == [];
    } else {
      ReplaySnoc(m, h, StepOf(m, h, st, p[0]).1, p[1..], r[1..], id);
      assert (p + [id])[1..] == p[1..] + [id];
      assert s[1..] == r[1..] + [Step(id, StepOf(m, h, StateAfter(m, h, st, p), id).1)];
    }
  }

  method CollectValues<V>(entries: seq<Entry<V>>, ghost h: seq<Operation<V>>)
    returns (callValue: map<nat, V>, returnValue: map<nat, V>)
    requires Represents(entries, h)
    ensures forall id: nat | id < |h| ::
      id in callValue && id in returnValue && callValue[id] == h[id].input && returnValue[id] == h[id].output
  {
    callValue, returnValue := map[], map[];
    for i := 0 to |entries|
      invariant forall id: nat | id < |h| && h[id].call < i :: id in callValue && callValue[id] == h[id].input
      invariant forall id: nat | id < |h| && h[id].ret < i :: id in returnValue && returnValue[id] == h[id].output
    {
      var elem := entries[i];
      assert IsCallOf(entries, h, elem.id) && IsReturnOf(entries, h, elem.id);
      if elem.kind == CallEntry {
        callValue := callValue[elem.id := elem.value];
      } else {
        returnValue := returnValue[elem.id := elem.value];
      }
    }
    forall id: nat | id < |h| ensures h[id].call < |entries| && h[id].ret < |entries| {
      assert IsCallOf(entries, h, id) && IsReturnOf(entries, h, id);
    }
  }

  /**
   * For each operation of the first `i` partial linearizations, and of the part `seen` of the next one, the index
   * and the size of a largest one that contains it.
   */
  ghost predicate LargestUpTo(
        partials: seq<seq<nat>>, i: nat, seen: seq<nat>, index: map<nat, nat>, size: map<nat, nat>)
    requires i <= |partials| && (seen != [] ==> i < |partials|)
  {
    && (forall id | id in index ::
          id in size && index[id] < |partials| && id in partials[index[id]] && size[id] == |partials[index[id]]|)
    && (forall id | id in size :: id in index)
    && (forall k, id | 0 <= k < i && id in partials[k] :: id in size && |partials[k]| <= size[id])
    && (forall id | id in seen :: id in size && |partials[i]| <= size[id])
  }

  function SizeOf(size: map<nat, nat>, id: nat): nat {
    if id in size then size[id] else 0
  }

  lemma NoteOne(partials: seq<seq<nat>>, i: nat, seen: seq<nat>, id: nat, index: map<nat, nat>, size: map<nat, nat>)
    requires i < |partials| && LargestUpTo(partials, i, seen, index, size) && id in partials[i]
    ensures SizeOf(size, id) < |partials[i]| ==>
        LargestUpTo(partials, i, seen + [id], index[id := i], size[id := |partials[i]|])
    ensures SizeOf(size, id) >= |partials[i]| ==> LargestUpTo(partials, i, seen + [id], index, size)
  {
  }

  lemma NothingYet(partials: seq<seq<nat>>)
    ensures LargestUpTo(partials, 0, [], map[], map[])
  {
  }

  lemma LargestIsLargest(partials: seq<seq<nat>>, index: map<nat, nat>, size: map<nat, nat>)
    requires LargestUpTo(partials, |partials|, [], index, size)
    ensures forall k, id | 0 <= k < |partials| && id in partials[k] ::
      id in index && index[id] < |partials| && id in partials[index[id]] && |partials[k]| <= |partials[index[id]]|
  {
  }

  lemma NoteAll(partials: seq<seq<nat>>, i: nat, index: map<nat, nat>, size: map<nat, nat>)
    requires i < |partials| && LargestUpTo(partials, i, partials[i], index, size)
    ensures LargestUpTo(partials, i + 1, [], index, size)
  {
  }

  /** Replays one partial linearization, the i-th. */
  method ReplayOne<S, V>(
        model: Model<S, V>, callValue: map<nat, V>, returnValue: map<nat, V>, partials: seq<seq<nat>>, i: nat,
        index: map<nat, nat>, size: map<nat, nat>, ghost h: seq<Operation<V>>)
    returns (linearization: Option<seq<Step<S>>>, index': map<nat, nat>, size': map<nat, nat>)
    requires forall id: nat | id < |h| ::
      id in callValue && id in returnValue && callValue[id] == h[id].input && returnValue[id] == h[id].output
    requires i < |partials| && InRange(partials[i], |h|) && LargestUpTo(partials, i, [], index, size)
    ensures linearization.Some? <==> Accepts(model, h, model.init, partials[i])
    ensures linearization.Some? ==> IsReplay(model, h, model.init, partials[i], linearization.value)
    ensures linearization.Some? ==> LargestUpTo(partials, i, partials[i], index', size')
  {
    hide Accepts, IsReplay, StateAfter, LargestUpTo;
    var partial := partials[i];
    index', size' := index, size;
    var state := model.init;
    var steps: seq<Step<S>> := [];
    ReplayEmpty(model, h);
    for j := 0 to |partial|
      invariant InRange(partial[..j], |h|) && Accepts(model, h, model.init, partial[..j])
      invariant IsReplay(model, h, model.init, partial[..j], steps) &&
          state == StateAfter(model, h, model.init, partial[..j])
      invariant LargestUpTo(partials, i, partial[..j], index', size')
    {
      var histId := partial[j];
      var (ok, next) := model.step(state, callValue[histId], returnValue[histId]);
      ReplayStep(model, h, partial, j, steps);
      if !ok {
        return None, index', size';
      }
      state := next;
      steps := steps + [Step(histId, state)];
      NoteOne(partials, i, partial[..j], histId, index', size');
      if SizeOf(size', histId) < |partial| {
        size' := size'[histId := |partial|];
        index' := index'[histId := i];
      }
      assert partial[..j + 1] == partial[..j] + [histId];
    }
    assert partial[..|partial|] == partial;
    linearization := Some(steps);
  }

  /** A replay lists the operations in order, each with the state that it and those before it lead to. */
  lemma {:induction false} ReplayIff<S, V>(m: Model<S, V>, h: seq<Operation<V>>, st: S, p: seq<nat>, r: seq<Step<S>>)
    requires InRange(p, |h|)
    ensures IsReplay(m, h, st, p, r) <==> |r| == |p| && forall j | 0 <= j < |p| :: ShowsStep(m, h, st, p, r, j)
    decreases |p|
  {
    hide IsReplay, StateAfter;
    UnfoldReplay(m, h, st, p, r);
    if p != [] && r != [] {
      var t := StepOf(m, h, st, p[0]).1;
      ReplayIff(m, h, t, p[1..], r[1..]);
      forall j | 0 <= j < |p| && |r| == |p|
        ensures ShowsStep(m, h, st, p, r, j) <==>
          if j == 0 then r[0] == Step(p[0], t) else ShowsStep(m, h, t, p[1..], r[1..], j - 1)
      {
        StateOneLater(m, h, st, p, j);
      }
      if |r| == |p| && forall j | 0 <= j < |p| :: ShowsStep(m, h, st, p, r, j) {
        assert ShowsStep(m, h, st, p, r, 0);
        forall j | 0 <= j < |p[1..]| ensures ShowsStep(m, h, t, p[1..], r[1..], j) {
          assert ShowsStep(m, h, st, p, r, j + 1);
        }
      }
    }
  }

  ghost predicate ShowsStep<S, V>(
        m: Model<S, V>, h: seq<Operation<V>>, st: S, p: seq<nat>, r: seq<Step<S>>, j: nat)
    requires InRange(p, |h|) && j < |p|
  {
    j < |r| && r[j] == Step(p[j], StateAfter(m, h, st, p[..j + 1]))
  }

  lemma UnfoldReplay<S, V>(m: Model<S, V>, h: seq<Operation<V>>, st: S, p: seq<nat>, r: seq<Step<S>>)
    requires InRange(p, |h|)
    ensures p == [] ==> (IsReplay(m, h, st, p, r) <==> r == [])
    ensures p != [] ==>
      var t := StepOf(m, h, st, p[0]).1;
      IsReplay(m, h, st, p, r) <==> r != [] && r[0] == Step(p[0], t) && IsReplay(m, h, t, p[1..], r[1..])
  {
  }

  lemma StateOneLater<S, V>(m: Model<S, V>, h: seq<Operation<V>>, st: S, p: seq<nat>, j: nat)
    requires InRange(p, |h|) && j < |p|
    ensures StateAfter(m, h, st, p[..j + 1]) == StateAfter(m, h, StepOf(m, h, st, p[0]).1, p[1..][..j])
    ensures StateAfter(m, h, StepOf(m, h, st, p[0]).1, []) == StepOf(m, h, st, p[0]).1
  {
    assert p[..j + 1][1..] == p[1..][..j];
  }

  lemma ReplayEmpty<S, V>(m: Model<S, V>, h: seq<Operation<V>>)
    ensures Accepts(m, h, m.init, []) && IsReplay(m, h, m.init, [], []) && StateAfter(m, h, m.init, []) == m.init
  {
  }

  lemma ReplayStep<S, V>(m: Model<S, V>, h: seq<Operation<V>>, p: seq<nat>, j: nat, r: seq<Step<S>>)
    requires InRange(p, |h|) && j < |p| && Accepts(m, h, m.init, p[..j]) && IsReplay(m, h, m.init, p[..j], r)
    ensures var (ok, t) := m.step(StateAfter(m, h, m.init, p[..j]), h[p[j]].input, h[p[j]].output);
      && (ok <==> Accepts(m, h, m.init, p[..j + 1])) && (!ok ==> !Accepts(m, h, m.init, p))
      && IsReplay(m, h, m.init, p[..j + 1], r + [Step(p[j], t)]) && StateAfter(m, h, m.init, p[..j + 1]) == t
  {
    assert p[..j + 1] == p[..j] + [p[j]];
    assert p == p[..j + 1] + p[j + 1..];
    AcceptsSplit(m, h, m.init, p[..j], [p[j]]);
    AcceptsSplit(m, h, m.init, p[..j + 1], p[j + 1..]);
    ReplaySnoc(m, h, m.init, p[..j], r, p[j]);
  }

  ghost predicate Replayed<S, V>(m: Model<S, V>, h: seq<Operation<V>>, partials: seq<seq<nat>>, r: Replay<S>, n: nat)
    requires n <= |partials| && forall i | 0 <= i < |partials| :: InRange(partials[i], |h|)
  {
    && r.Done? && |r.linearizations| == n
    && forall i | 0 <= i < n ::
        Accepts(m, h, m.init, partials[i]) && IsReplay(m, h, m.init, partials[i], r.linearizations[i])
  }

  /**
   * Replays all partial linearizations. The panic is raised exactly when the model rejects one of them; otherwise
   * `largest` gives each operation a largest partial linearization that contains it.
   */
  method ReplayAll<S, V>(
        model: Model<S, V>, entries: seq<Entry<V>>, partials: seq<seq<nat>>, ghost h: seq<Operation<V>>)
    returns (r: Replay<S>)
    requires Represents(entries, h) && forall i | 0 <= i < |partials| :: InRange(partials[i], |h|)
    ensures r.Done? <==> forall i | 0 <= i < |partials| :: Accepts(model, h, model.init, partials[i])
    ensures r.Done? ==> Replayed(model, h, partials, r, |partials|)
    ensures r.Done? ==> forall k, id | 0 <= k < |partials| && id in partials[k] ::
      && id in r.largest && r.largest[id] < |partials|
      && id in partials[r.largest[id]] && |partials[k]| <= |partials[r.largest[id]]|
  {
    hide Accepts, IsReplay, LargestUpTo, Represents;
    NothingYet(partials);
    var callValue, returnValue := CollectValues(entries, h);
    var largestIndex: map<nat, nat>, largestSize: map<nat, nat> := map[], map[];
    var linearizations: seq<seq<Step<S>>> := [];
    for i := 0 to |partials|
      invariant Replayed(model, h, partials, Done(linearizations, map[]), i)
      invariant LargestUpTo(partials, i, [], largestIndex, largestSize)
    {
      var linearization;
      linearization, largestIndex, largestSize :=
        ReplayOne(model, callValue, returnValue, partials, i, largestIndex, largestSize, h);
      if linearization.None? {
        return Panic;
      }
      NoteAll(partials, i, largestIndex, largestSize);
      linearizations := linearizations + [linearization.value];
    }
    LargestIsLargest(partials, largestIndex, largestSize);
    r := Done(linearizations, largestIndex);
  }

  /**
   * The panic is unreachable: the model accepts whatever a search recorded, also one that was killed before its end.
   * `partials` are records, picked in any way.
   */
  lemma RecordsAreAccepted<S, V>(m: Model<S, V>, h: seq<Operation<V>>, longest: Longest, partials: seq<seq<nat>>)
    requires RecordsOk(m, h, longest) && forall k | 0 <= k < |partials| :: Some(partials[k]) in longest
    ensures forall k | 0 <= k < |partials| :: InRange(partials[k], |h|) && Accepts(m, h, m.init, partials[k])
  {
    hide Accepts;
    forall k | 0 <= k < |partials| ensures PartiallyLinearizes(m, h, partials[k]) {
      var i: nat :| i < |longest| && longest[i] == Some(partials[k]);
    }
  }
}
