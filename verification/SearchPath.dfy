/**
 * The state of one run of the checker's search, seen abstractly: the stack of linearized operations,
 * the cursor in the entry list, the cache and the records. Each lemma is one way the loop moves.
 */
module SearchPath {
  import opened Options
  import opened FiniteSets
  import opened Linearizability
  import opened SearchTheory
  import opened LinkedEntries

  /** What a search is about; `partials` says whether records of partial linearizations are kept. */
  datatype Problem<!S, !V> = Problem(m: Model<S, V>, h: seq<Operation<V>>, es: seq<Entry<V>>, partials: bool)

  ghost predicate WellFormed<S, V>(pb: Problem<S, V>) {
    Represents(pb.es, pb.h)
  }

  /** The stack: operation ids[k] was linearized in state states[k]; st is the state reached. */
  datatype Path<S> = Path(ids: seq<nat>, states: seq<S>, st: S)

  ghost function StateAt<S>(s: Path<S>, k: nat): S {
    if k < |s.states| then s.states[k] else s.st
  }

  ghost function DoneAt<S>(s: Path<S>, k: nat): set<nat>
    requires k <= |s.ids|
  {
    SetOf(s.ids[..k])
  }

  ghost predicate StepTaken<S, V>(pb: Problem<S, V>, s: Path<S>, k: nat)
    requires k < |s.ids|
  {
    && Enabled(pb.h, DoneAt(s, k), s.ids[k])
    && StepOf(pb.m, pb.h, StateAt(s, k), s.ids[k]) == (true, StateAt(s, k + 1))
  }

  ghost predicate PathOk<S, V>(pb: Problem<S, V>, s: Path<S>) {
    && |s.states| == |s.ids| && InRange(s.ids, |pb.h|) && Distinct(s.ids)
    && StateAt(s, 0) == pb.m.init
    && forall k | 0 <= k < |s.ids| :: StepTaken(pb, s, k)
  }

  /** Everything listed before position p is a call, and has been tried. */
  ghost predicate LevelOk<S, V>(pb: Problem<S, V>, longest: Longest, done: set<nat>, st: S, p: nat)
    requires WellFormed(pb)
  {
    forall x | 0 <= x < |pb.es| && x + 1 < p && pb.es[x].id !in done ::
      pb.es[x].kind == CallEntry && Tried(pb.m, pb.h, pb.partials, longest, done, st, pb.es[x].id)
  }

  ghost predicate StackOk<S, V>(pb: Problem<S, V>, longest: Longest, s: Path<S>)
    requires WellFormed(pb) && InRange(s.ids, |pb.h|)
  {
    forall k | 0 <= k < |s.ids| :: LevelOk(pb, longest, DoneAt(s, k), StateAt(s, k), CallPosition(pb, s.ids[k]))
  }

  ghost function CallPosition<S, V>(pb: Problem<S, V>, id: nat): nat
    requires WellFormed(pb) && id < |pb.h|
  {
    assert IsCallOf(pb.es, pb.h, id);
    pb.h[id].call + 1
  }

  ghost predicate OnPath<S>(s: Path<S>, config: (set<nat>, S)) {
    exists k: nat | 1 <= k <= |s.ids| :: config == (DoneAt(s, k), StateAt(s, k))
  }

  /** Every cached configuration is on the current path or exhausted. */
  ghost predicate CacheOk<S, V>(pb: Problem<S, V>, longest: Longest, s: Path<S>, configs: set<(set<nat>, S)>) {
    forall c | c in configs :: OnPath(s, c) || Exhausted(pb.m, pb.h, pb.partials, longest, c.0, c.1)
  }

  /** Each record is a partial linearization that contains its operation. */
  ghost predicate RecordsOk<S, V>(m: Model<S, V>, h: seq<Operation<V>>, longest: Longest) {
    && |longest| == |h|
    && forall i: nat | i < |longest| && longest[i].Some? ::
        i in longest[i].value && PartiallyLinearizes(m, h, longest[i].value)
  }

  /** `p` is the cursor's list position; |es| + 1 means past the end. */
  ghost predicate Inv<S, V>(pb: Problem<S, V>, longest: Longest, s: Path<S>, p: nat, configs: set<(set<nat>, S)>)
  {
    && WellFormed(pb) && PathOk(pb, s)
    && StackOk(pb, longest, s)
    && LevelOk(pb, longest, SetOf(s.ids), s.st, p)
    && CacheOk(pb, longest, s, configs)
    && RecordsOk(pb.m, pb.h, longest)
  }

  // ----- moves of the search

  ghost predicate Listed<S, V>(pb: Problem<S, V>, done: set<nat>, p: nat) {
    1 <= p <= |pb.es| && pb.es[p - 1].id !in done
  }

  /** No listed entry lies in [p, q). */
  ghost predicate NothingBetween<S, V>(pb: Problem<S, V>, done: set<nat>, p: nat, q: nat) {
    forall x | 0 <= x < |pb.es| && p <= x + 1 < q :: pb.es[x].id in done
  }

  lemma StartKeepsInv<S, V>(pb: Problem<S, V>, longest: Longest)
    requires WellFormed(pb) && |longest| == |pb.h| && forall i | 0 <= i < |longest| :: longest[i] == None
    ensures Inv(pb, longest, Path([], [], pb.m.init), 1, {})
  {
  }

  /** The call under the cursor leads nowhere: the cursor moves on to the next entry. */
  lemma SkipKeepsInv<S, V>(pb: Problem<S, V>, longest: Longest, s: Path<S>, p: nat, configs: set<(set<nat>, S)>, q: nat)
    requires Inv(pb, longest, s, p, configs) && Listed(pb, SetOf(s.ids), p) && pb.es[p - 1].kind == CallEntry
    requires Tried(pb.m, pb.h, pb.partials, longest, SetOf(s.ids), s.st, pb.es[p - 1].id)
    requires NothingBetween(pb, SetOf(s.ids), p + 1, q)
    ensures Inv(pb, longest, s, q, configs)
  {
    hide Tried, PathOk, StackOk, CacheOk, RecordsOk;
  }

  /** The operation under the cursor has only calls listed before it, so it may come next. */
  lemma CursorIsEnabled<S, V>(pb: Problem<S, V>, longest: Longest, done: set<nat>, st: S, p: nat)
    requires WellFormed(pb) && LevelOk(pb, longest, done, st, p)
    requires Listed(pb, done, p) && pb.es[p - 1].kind == CallEntry
    ensures Enabled(pb.h, done, pb.es[p - 1].id)
  {
    hide Tried;
    var id := pb.es[p - 1].id;
    forall x: nat | x < |pb.h| && pb.h[x].ret < pb.h[id].call ensures x in done {
      assert IsReturnOf(pb.es, pb.h, x);
    }
  }

  /** At a return entry, every operation that may come next has been tried. */
  lemma AllEnabledTried<S, V>(pb: Problem<S, V>, longest: Longest, done: set<nat>, st: S, p: nat, id: nat)
    requires WellFormed(pb) && LevelOk(pb, longest, done, st, p)
    requires Listed(pb, done, p) && pb.es[p - 1].kind == ReturnEntry && Enabled(pb.h, done, id)
    ensures Tried(pb.m, pb.h, pb.partials, longest, done, st, id)
  {
    hide Tried;
    assert IsCallOf(pb.es, pb.h, id);
    var r := pb.es[p - 1].id;
    assert IsReturnOf(pb.es, pb.h, r);
  }

  // ----- linearizing one more operation

  ghost function Extend<S>(s: Path<S>, id: nat, st: S): Path<S> {
    Path(s.ids + [id], s.states + [s.st], st)
  }

  lemma ExtendAgrees<S>(s: Path<S>, id: nat, st: S, k: nat)
    requires |s.states| == |s.ids| && k <= |s.ids|
    ensures DoneAt(Extend(s, id, st), k) == DoneAt(s, k) && StateAt(Extend(s, id, st), k) == StateAt(s, k)
  {
    assert (s.ids + [id])[..k] == s.ids[..k];
  }

  lemma ExtendEnds<S>(s: Path<S>, id: nat, st: S)
    requires |s.states| == |s.ids|
    ensures DoneAt(s, |s.ids|) == SetOf(s.ids)
    ensures DoneAt(Extend(s, id, st), |s.ids| + 1) == SetOf(s.ids + [id]) == SetOf(s.ids) + {id}
    ensures StateAt(Extend(s, id, st), |s.ids| + 1) == st && StateAt(s, |s.ids|) == s.st
  {
    assert s.ids[..|s.ids|] == s.ids;
    assert (s.ids + [id])[..|s.ids| + 1] == s.ids + [id];
    SetOfSnoc(s.ids, id);
  }

  lemma EnabledIsNew<V>(h: seq<Operation<V>>, ids: seq<nat>, id: nat)
    requires Enabled(h, SetOf(ids), id)
    ensures id < |h| && id !in ids
  {
  }

  lemma ExtendPathOk<S, V>(pb: Problem<S, V>, s: Path<S>, id: nat, st: S)
    requires PathOk(pb, s) && Enabled(pb.h, SetOf(s.ids), id) && StepOf(pb.m, pb.h, s.st, id) == (true, st)
    ensures PathOk(pb, Extend(s, id, st))
  {
    hide Enabled, StepOf, SetOf;
    EnabledIsNew(pb.h, s.ids, id);
    var t := Extend(s, id, st);
    forall k | 0 <= k < |t.ids| ensures StepTaken(pb, t, k) {
      ExtendAgrees(s, id, st, k);
      if k < |s.ids| {
        ExtendAgrees(s, id, st, k + 1);
        assert StepTaken(pb, s, k);
      } else {
        ExtendEnds(s, id, st);
      }
    }
    ExtendAgrees(s, id, st, 0);
  }

  lemma ExtendStackOk<S, V>(pb: Problem<S, V>, longest: Longest, s: Path<S>, id: nat, st: S)
    requires WellFormed(pb) && PathOk(pb, s) && id < |pb.h|
    requires StackOk(pb, longest, s) && LevelOk(pb, longest, SetOf(s.ids), s.st, CallPosition(pb, id))
    requires InRange(Extend(s, id, st).ids, |pb.h|)
    ensures StackOk(pb, longest, Extend(s, id, st))
  {
    hide WellFormed, PathOk, LevelOk, SetOf, DoneAt, StateAt, CallPosition;
    PathSizes(pb, s);
    var t := Extend(s, id, st);
    forall k | 0 <= k < |t.ids| ensures LevelOk(pb, longest, DoneAt(t, k), StateAt(t, k), CallPosition(pb, t.ids[k])) {
      ExtendAgrees(s, id, st, k);
      if k == |s.ids| {
        ExtendEnds(s, id, st);
      }
    }
  }

  lemma PathSizes<S, V>(pb: Problem<S, V>, s: Path<S>)
    requires PathOk(pb, s)
    ensures |s.states| == |s.ids| && InRange(s.ids, |pb.h|) && Distinct(s.ids)
    ensures |s.ids| <= |pb.h|
  {
    FullIsOnto(s.ids, |pb.h|);
  }

  lemma OnExtendedPath<S>(s: Path<S>, id: nat, st: S, c: (set<nat>, S))
    requires |s.states| == |s.ids|
    ensures OnPath(s, c) ==> OnPath(Extend(s, id, st), c)
    ensures OnPath(Extend(s, id, st), (SetOf(s.ids) + {id}, st))
    ensures OnPath(Extend(s, id, st), c) ==> OnPath(s, c) || c == (SetOf(s.ids) + {id}, st)
  {
    hide SetOf, DoneAt, StateAt;
    var t := Extend(s, id, st);
    ExtendEnds(s, id, st);
    if OnPath(s, c) {
      var k: nat :| 1 <= k <= |s.ids| && c == (DoneAt(s, k), StateAt(s, k));
      ExtendAgrees(s, id, st, k);
      assert c == (DoneAt(t, k), StateAt(t, k));
    }
    if OnPath(t, c) {
      var k: nat :| 1 <= k <= |t.ids| && c == (DoneAt(t, k), StateAt(t, k));
      if k <= |s.ids| {
        ExtendAgrees(s, id, st, k);
        assert c == (DoneAt(s, k), StateAt(s, k));
      }
    }
  }

  /** The operation under the cursor is linearized and its configuration cached; the cursor goes back to the front. */
  lemma PushKeepsInv<S, V>(
        pb: Problem<S, V>, longest: Longest, s: Path<S>, p: nat, configs: set<(set<nat>, S)>, st: S, q: nat)
    requires Inv(pb, longest, s, p, configs) && Listed(pb, SetOf(s.ids), p) && pb.es[p - 1].kind == CallEntry
    requires StepOf(pb.m, pb.h, s.st, pb.es[p - 1].id) == (true, st)
    requires NothingBetween(pb, SetOf(s.ids) + {pb.es[p - 1].id}, 1, q)
    ensures Inv(pb, longest, Extend(s, pb.es[p - 1].id, st), q, configs + {(SetOf(s.ids) + {pb.es[p - 1].id}, st)})
  {
    hide StepOf, PathOk, StackOk, OnPath, RecordsOk, SetOf, Exhausted, Tried;
    var id := pb.es[p - 1].id;
    var t := Extend(s, id, st);
    CursorIsEnabled(pb, longest, SetOf(s.ids), s.st, p);
    ExtendPathOk(pb, s, id, st);
    PathSizes(pb, s);
    PathSizes(pb, t);
    ExtendStackOk(pb, longest, s, id, st);
    ExtendEnds(s, id, st);
    forall c | c in configs + {(SetOf(s.ids) + {id}, st)}
      ensures OnPath(t, c) || Exhausted(pb.m, pb.h, pb.partials, longest, c.0, c.1)
    {
      OnExtendedPath(s, id, st, c);
    }
  }

  // ----- taking the last operation back

  ghost function Shrink<S>(s: Path<S>): Path<S>
    requires |s.states| == |s.ids| > 0
  {
    var n := |s.ids| - 1;
    Path(s.ids[..n], s.states[..n], s.states[n])
  }

  lemma ExtendShrink<S>(s: Path<S>)
    requires |s.states| == |s.ids| > 0
    ensures Extend(Shrink(s), s.ids[|s.ids| - 1], s.st) == s
  {
  }

  lemma ShrinkPathOk<S, V>(pb: Problem<S, V>, s: Path<S>)
    requires PathOk(pb, s) && |s.ids| > 0
    ensures PathOk(pb, Shrink(s))
    ensures StepOf(pb.m, pb.h, Shrink(s).st, s.ids[|s.ids| - 1]) == (true, s.st)
  {
    hide Enabled, StepOf, SetOf, Extend, Shrink;
    var t, id := Shrink(s), s.ids[|s.ids| - 1];
    ShrinkFields(s);
    ExtendShrink(s);
    forall k | 0 <= k <= |t.ids| ensures DoneAt(t, k) == DoneAt(s, k) && StateAt(t, k) == StateAt(s, k) {
      ExtendAgrees(t, id, s.st, k);
    }
    forall k | 0 <= k < |t.ids| ensures StepTaken(pb, t, k) {
      assert StepTaken(pb, s, k);
    }
    assert StepTaken(pb, s, |t.ids|);
  }

  lemma ShrinkFields<S>(s: Path<S>)
    requires |s.states| == |s.ids| > 0
    ensures var t := Shrink(s);
      |t.ids| == |t.states| == |s.ids| - 1 && t.ids == s.ids[..|s.ids| - 1] && t.st == s.states[|s.ids| - 1]
    ensures s.ids == Shrink(s).ids + [s.ids[|s.ids| - 1]]
    ensures forall k | 0 <= k < |s.ids| - 1 :: Shrink(s).ids[k] == s.ids[k]
  {
  }

  lemma ShrinkStackOk<S, V>(pb: Problem<S, V>, longest: Longest, s: Path<S>)
    requires WellFormed(pb) && PathOk(pb, s) && |s.ids| > 0 && StackOk(pb, longest, s)
    requires InRange(Shrink(s).ids, |pb.h|)
    ensures StackOk(pb, longest, Shrink(s))
    ensures LevelOk(pb, longest, SetOf(Shrink(s).ids), Shrink(s).st, CallPosition(pb, s.ids[|s.ids| - 1]))
  {
    hide WellFormed, PathOk, LevelOk, SetOf, DoneAt, StateAt, CallPosition, Extend, Shrink;
    PathSizes(pb, s);
    var t, id := Shrink(s), s.ids[|s.ids| - 1];
    ShrinkFields(s);
    ExtendShrink(s);
    forall k | 0 <= k < |t.ids| ensures LevelOk(pb, longest, DoneAt(t, k), StateAt(t, k), CallPosition(pb, t.ids[k])) {
      ExtendAgrees(t, id, s.st, k);
      assert LevelOk(pb, longest, DoneAt(s, k), StateAt(s, k), CallPosition(pb, s.ids[k]));
    }
    ExtendAgrees(t, id, s.st, |t.ids|);
    ExtendEnds(t, id, s.st);
    assert LevelOk(pb, longest, DoneAt(s, |t.ids|), StateAt(s, |t.ids|), CallPosition(pb, id));
  }

  // ----- records only improve

  lemma LevelOkMono<S, V>(pb: Problem<S, V>, was: Longest, now: Longest, done: set<nat>, st: S, p: nat)
    requires WellFormed(pb) && LevelOk(pb, was, done, st, p) && NoShorter(was, now)
    ensures LevelOk(pb, now, done, st, p)
  {
    hide Exhausted, NoShorter;
    forall x | 0 <= x < |pb.es| && x + 1 < p && pb.es[x].id !in done
      ensures pb.es[x].kind == CallEntry && Tried(pb.m, pb.h, pb.partials, now, done, st, pb.es[x].id)
    {
      var id := pb.es[x].id;
      if StepOf(pb.m, pb.h, st, id).0 {
        ExhaustedMono(pb.m, pb.h, pb.partials, was, now, done + {id}, StepOf(pb.m, pb.h, st, id).1);
      }
    }
  }

  lemma StackOkMono<S, V>(pb: Problem<S, V>, was: Longest, now: Longest, s: Path<S>)
    requires WellFormed(pb) && InRange(s.ids, |pb.h|) && StackOk(pb, was, s) && NoShorter(was, now)
    ensures StackOk(pb, now, s)
  {
    hide LevelOk, NoShorter, DoneAt, StateAt, CallPosition, WellFormed;
    forall k | 0 <= k < |s.ids| ensures LevelOk(pb, now, DoneAt(s, k), StateAt(s, k), CallPosition(pb, s.ids[k])) {
      LevelOkMono(pb, was, now, DoneAt(s, k), StateAt(s, k), CallPosition(pb, s.ids[k]));
    }
  }

  lemma CacheOkMono<S, V>(pb: Problem<S, V>, was: Longest, now: Longest, s: Path<S>, configs: set<(set<nat>, S)>)
    requires CacheOk(pb, was, s, configs) && NoShorter(was, now)
    ensures CacheOk(pb, now, s, configs)
  {
    hide Exhausted, NoShorter, OnPath;
    forall c | c in configs ensures OnPath(s, c) || Exhausted(pb.m, pb.h, pb.partials, now, c.0, c.1) {
      if !OnPath(s, c) {
        ExhaustedMono(pb.m, pb.h, pb.partials, was, now, c.0, c.1);
      }
    }
  }

  /** At a return entry nothing is left to try: the last operation is taken back and the cursor moves on from it. */
  lemma PopKeepsInv<S, V>(
        pb: Problem<S, V>, was: Longest, now: Longest, s: Path<S>, p: nat, configs: set<(set<nat>, S)>, q: nat)
    requires Inv(pb, was, s, p, configs) && Listed(pb, SetOf(s.ids), p) && pb.es[p - 1].kind == ReturnEntry
    requires |s.ids| > 0
    requires NoShorter(was, now) && RecordsOk(pb.m, pb.h, now) && (pb.partials ==> Recorded(now, SetOf(s.ids), []))
    requires NothingBetween(pb, SetOf(Shrink(s).ids), CallPosition(pb, s.ids[|s.ids| - 1]) + 1, q)
    ensures Inv(pb, now, Shrink(s), q, configs)
  {
    hide StepOf, PathOk, LevelOk, StackOk, CacheOk, RecordsOk, NoShorter, Recorded, SetOf, Shrink, NothingBetween;
    PathSizes(pb, s);
    ExhaustedAtReturn(pb, was, now, s, p);
    ShrinkPathOk(pb, s);
    var t := Shrink(s);
    PathSizes(pb, t);
    ShrinkFields(s);
    ShrinkStackOk(pb, was, s);
    StackOkMono(pb, was, now, t);
    CacheOkMono(pb, was, now, s, configs);
    ShrinkCacheOk(pb, now, s, configs);
    var id := s.ids[|s.ids| - 1];
    LevelOkMono(pb, was, now, SetOf(t.ids), t.st, CallPosition(pb, id));
    SetOfSnoc(t.ids, id);
    LevelOkPast(pb, now, SetOf(t.ids), t.st, id, q);
  }

  lemma ExhaustedAtReturn<S, V>(pb: Problem<S, V>, was: Longest, now: Longest, s: Path<S>, p: nat)
    requires WellFormed(pb) && PathOk(pb, s) && LevelOk(pb, was, SetOf(s.ids), s.st, p)
    requires Listed(pb, SetOf(s.ids), p) && pb.es[p - 1].kind == ReturnEntry
    requires NoShorter(was, now) && (pb.partials ==> Recorded(now, SetOf(s.ids), []))
    ensures Exhausted(pb.m, pb.h, pb.partials, now, SetOf(s.ids), s.st)
  {
    hide LevelOk, PathOk, Tried, Exhausted, NoShorter, Recorded, StepOf, Enabled;
    PathSizes(pb, s);
    DistinctSetSize(s.ids);
    FullIsOnto(s.ids, |pb.h|);
    assert pb.es[p - 1].id < |pb.h| && pb.es[p - 1].id !in s.ids;
    LevelOkMono(pb, was, now, SetOf(s.ids), s.st, p);
    forall id | Enabled(pb.h, SetOf(s.ids), id) ensures EnabledTried(pb, now, SetOf(s.ids), s.st, id) {
      EnabledInRange(pb.h, SetOf(s.ids), id);
      AllEnabledTried(pb, now, SetOf(s.ids), s.st, p, id);
    }
    ExhaustedWhenTried(pb, now, SetOf(s.ids), s.st);
  }

  ghost predicate EnabledTried<S, V>(pb: Problem<S, V>, longest: Longest, done: set<nat>, st: S, id: nat) {
    id < |pb.h| && Tried(pb.m, pb.h, pb.partials, longest, done, st, id)
  }

  lemma EnabledInRange<V>(h: seq<Operation<V>>, done: set<nat>, id: nat)
    requires Enabled(h, done, id)
    ensures id < |h|
  {
  }

  lemma ExhaustedWhenTried<S, V>(pb: Problem<S, V>, longest: Longest, done: set<nat>, st: S)
    requires |done| < |pb.h| && (pb.partials ==> Recorded(longest, done, []))
    requires forall id | Enabled(pb.h, done, id) :: EnabledTried(pb, longest, done, st, id)
    ensures Exhausted(pb.m, pb.h, pb.partials, longest, done, st)
  {
    hide Tried, Exhausted, Recorded;
    forall id | Enabled(pb.h, done, id) ensures Tried(pb.m, pb.h, pb.partials, longest, done, st, id) {
      assert EnabledTried(pb, longest, done, st, id);
    }
    ExhaustedFromTries(pb.m, pb.h, pb.partials, longest, done, st);
  }

  lemma ShrinkCacheOk<S, V>(pb: Problem<S, V>, longest: Longest, s: Path<S>, configs: set<(set<nat>, S)>)
    requires |s.states| == |s.ids| > 0 && CacheOk(pb, longest, s, configs)
    requires Exhausted(pb.m, pb.h, pb.partials, longest, SetOf(s.ids), s.st)
    ensures CacheOk(pb, longest, Shrink(s), configs)
  {
    hide Exhausted, OnPath, SetOf, Shrink, Extend;
    var t, id := Shrink(s), s.ids[|s.ids| - 1];
    ShrinkFields(s);
    ExtendShrink(s);
    SetOfSnoc(t.ids, id);
    forall c | c in configs ensures OnPath(t, c) || Exhausted(pb.m, pb.h, pb.partials, longest, c.0, c.1) {
      OnExtendedPath(t, id, s.st, c);
    }
  }

  lemma LevelOkPast<S, V>(pb: Problem<S, V>, longest: Longest, done: set<nat>, st: S, id: nat, q: nat)
    requires WellFormed(pb) && id < |pb.h| && LevelOk(pb, longest, done, st, CallPosition(pb, id))
    requires Tried(pb.m, pb.h, pb.partials, longest, done, st, id)
    requires NothingBetween(pb, done, CallPosition(pb, id) + 1, q)
    ensures LevelOk(pb, longest, done, st, q)
  {
    hide Tried;
    assert IsCallOf(pb.es, pb.h, id);
  }

  // ----- the cache

  /** A configuration found in the cache is not on the path, since it is larger than those; so it was exhausted. */
  lemma HitIsTried<S(!new), V(!new)>(
        pb: Problem<S, V>, longest: Longest, s: Path<S>, configs: set<(set<nat>, S)>, id: nat, st: S, found: S)
    requires EqualIsCongruence(pb.m) && PathOk(pb, s) && CacheOk(pb, longest, s, configs)
    requires id < |pb.h| && id !in s.ids && StepOf(pb.m, pb.h, s.st, id) == (true, st)
    requires (SetOf(s.ids) + {id}, found) in configs && pb.m.equal(st, found)
    ensures Tried(pb.m, pb.h, pb.partials, longest, SetOf(s.ids), s.st, id)
  {
    hide Exhausted, PathOk, EqualIsCongruence, OnPath;
    PathSizes(pb, s);
    DistinctSetSize(s.ids);
    var done := SetOf(s.ids) + {id};
    assert |done| == |s.ids| + 1;
    OnPathIsSmall(s, (done, found));
    assert Exhausted(pb.m, pb.h, pb.partials, longest, done, found);
    ExhaustedByEqual(pb.m, pb.h, pb.partials, longest, done, st, found);
  }

  lemma OnPathIsSmall<S>(s: Path<S>, c: (set<nat>, S))
    requires Distinct(s.ids)
    ensures OnPath(s, c) ==> |c.0| <= |s.ids|
  {
    if OnPath(s, c) {
      var k: nat :| 1 <= k <= |s.ids| && c == (DoneAt(s, k), StateAt(s, k));
      DistinctSetSize(s.ids[..k]);
    }
  }

  // ----- records

  lemma {:induction false} PathAccepts<S, V>(pb: Problem<S, V>, s: Path<S>, k: nat)
    requires PathOk(pb, s) && k <= |s.ids|
    ensures InRange(s.ids[k..], |pb.h|) && Accepts(pb.m, pb.h, StateAt(s, k), s.ids[k..])
    decreases |s.ids| - k
  {
    if k < |s.ids| {
      PathAccepts(pb, s, k + 1);
      assert StepTaken(pb, s, k);
      assert s.ids[k..][1..] == s.ids[k + 1..];
    }
  }

  /** The operations on the stack are, in stack order, a partial linearization. */
  lemma PathIsPartial<S, V>(pb: Problem<S, V>, s: Path<S>)
    requires PathOk(pb, s)
    ensures PartiallyLinearizes(pb.m, pb.h, s.ids)
  {
    hide Accepts, StepOf;
    PathAccepts(pb, s, 0);
    assert s.ids[0..] == s.ids;
    forall j, x: nat | 0 <= j < |s.ids| && x < |pb.h| && pb.h[x].ret < pb.h[s.ids[j]].call
      ensures x in s.ids[..j]
    {
      assert StepTaken(pb, s, j);
    }
  }

  ghost predicate Improvable(longest: Longest, ids: seq<nat>, i: nat)
    requires i < |longest|
  {
    i in ids && (longest[i].None? || |longest[i].value| < |ids|)
  }

  /** The records after the stack `ids` was offered as a partial linearization of each of its operations. */
  ghost predicate IsImproved(was: Longest, now: Longest, ids: seq<nat>) {
    && |now| == |was|
    && forall i | 0 <= i < |was| :: now[i] == if Improvable(was, ids, i) then Some(ids) else was[i]
  }

  lemma ImprovedRecords<S, V>(pb: Problem<S, V>, was: Longest, now: Longest, s: Path<S>)
    requires PathOk(pb, s) && RecordsOk(pb.m, pb.h, was) && IsImproved(was, now, s.ids)
    ensures NoShorter(was, now) && RecordsOk(pb.m, pb.h, now) && Recorded(now, SetOf(s.ids), [])
  {
    hide PartiallyLinearizes;
    PathIsPartial(pb, s);
    PathSizes(pb, s);
    DistinctSetSize(s.ids);
  }

  // ----- the end of the search

  lemma EmptyListIsSuccess<S, V>(pb: Problem<S, V>, s: Path<S>)
    requires WellFormed(pb) && WellTimed(pb.h) && PathOk(pb, s)
    requires forall x | 0 <= x < |pb.es| :: pb.es[x].id in s.ids
    ensures Linearizes(pb.m, pb.h, s.ids)
  {
    hide PathOk, Linearizes, PartiallyLinearizes;
    PathSizes(pb, s);
    forall i: nat | i < |pb.h| ensures i in s.ids {
      assert IsCallOf(pb.es, pb.h, i);
    }
    OntoIsFull(s.ids, |pb.h|);
    PathIsPartial(pb, s);
    FullPartialIsLinearization(pb.m, pb.h, s.ids);
  }

  /** `longest[i]` is a longest partial linearization containing operation i, and missing only when there is none. */
  ghost predicate LongestFor<S, V>(m: Model<S, V>, h: seq<Operation<V>>, longest: Longest, i: nat) {
    && i < |longest|
    && (longest[i].Some? ==> i in longest[i].value && PartiallyLinearizes(m, h, longest[i].value))
    && forall p | PartiallyLinearizes(m, h, p) && i in p :: longest[i].Some? && |p| <= |longest[i].value|
  }

  lemma ExhaustedIsFailure<S, V>(pb: Problem<S, V>, longest: Longest)
    requires WellTimed(pb.h) && RecordsOk(pb.m, pb.h, longest) &&
        Exhausted(pb.m, pb.h, pb.partials, longest, {}, pb.m.init)
    ensures !Linearizable(pb.m, pb.h)
    ensures pb.partials ==> forall i: nat | i < |pb.h| :: LongestFor(pb.m, pb.h, longest, i)
  {
    hide PartiallyLinearizes, Linearizes, Extends;
    forall p ensures !Linearizes(pb.m, pb.h, p) {
      FullPartialIsLinearization(pb.m, pb.h, p);
      ExtensionsArePartialLinearizations(pb.m, pb.h, p);
    }
    if pb.partials {
      forall i: nat, p | i < |pb.h| && PartiallyLinearizes(pb.m, pb.h, p) && i in p
        ensures longest[i].Some? && |p| <= |longest[i].value|
      {
        ExtensionsArePartialLinearizations(pb.m, pb.h, p);
        assert Recorded(longest, {}, p);
      }
    }
  }
}
