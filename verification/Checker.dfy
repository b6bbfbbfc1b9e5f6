/** The backtracking search for a linearization of one history. */
module Checker {
  import opened Options
  import opened FiniteSets
  import opened Linearizability
  import opened SearchTheory
  import opened LinkedEntries
  import opened SearchPath
  import opened SearchList
  import opened SearchRank
  import opened SearchCache
  import Bitset

  datatype CallsEntry<S, V(0)> = CallsEntry(entry: Node<V>, state: S)

  /** The stack of calls holds the operations and states of the path `s`. */
  ghost predicate StackMirrors<S, V(0)>(
        pb: Problem<S, V>, nodes: seq<Node<V>>, calls: seq<CallsEntry<S, V>>, s: Path<S>)
  {
    && CarriesAll(pb, nodes) && |calls| == |s.ids| == |s.states| && InRange(s.ids, |pb.h|)
    && forall k | 0 <= k < |calls| ::
         && CallPosition(pb, s.ids[k]) < |nodes|
         && calls[k].entry == nodes[CallPosition(pb, s.ids[k])] && calls[k].entry.id == s.ids[k]
         && calls[k].state == s.states[k]
  }

  ghost predicate HoldsIds<S, V(0)>(calls: seq<CallsEntry<S, V>>, ids: seq<nat>) {
    |calls| == |ids| && forall k | 0 <= k < |calls| :: calls[k].entry.id == ids[k]
  }

  method CollectIds<S, V(0)>(calls: seq<CallsEntry<S, V>>, ghost ids: seq<nat>) returns (r: seq<nat>)
    requires HoldsIds(calls, ids)
    ensures r == ids
  {
    r := [];
    for i := 0 to |calls|
      invariant r == ids[..i]
    {
      r := r + [calls[i].entry.id];
    }
  }

  /** Offers the stack as a record to each of its operations. */
  method RecordLongest<S, V(0)>(longest: array<Option<seq<nat>>>, calls: seq<CallsEntry<S, V>>, ghost ids: seq<nat>)
    requires HoldsIds(calls, ids) && InRange(ids, longest.Length)
    modifies longest
    ensures IsImproved(old(longest[..]), longest[..], ids)
    ensures forall i | 0 <= i < longest.Length ::
        longest[i] == if i in ids && (old(longest[i]).Some? ==> |old(longest[i]).value| < |ids|) then Some(ids)
                      else old(longest[i])
  {
    var callsLen := |calls|;
    var sequence: Option<seq<nat>> := None;
    for k := 0 to |calls|
      invariant sequence.Some? ==> sequence.value == ids
      invariant forall i | 0 <= i < longest.Length ::
        longest[i] == if i in ids[..k] && Improvable(old(longest[..]), ids, i) then Some(ids) else old(longest[i])
    {
      assert ids[..k + 1] == ids[..k] + [ids[k]];
      var id := calls[k].entry.id;
      if longest[id].None? || callsLen > |longest[id].value| {
        if sequence.None? {
          var made := CollectIds(calls, ids);
          sequence := Some(made);
        }
        longest[id] := sequence;
      }
    }
    assert ids[..|ids|] == ids;
  }

  /** What `CheckSingle` reports about the records. */
  ghost predicate Reported<S, V>(m: Model<S, V>, h: seq<Operation<V>>, ok: bool, partials: bool, longest: Longest) {
    && |longest| == |h|
    && (ok ==> forall i | 0 <= i < |h| :: longest[i].Some? && Linearizes(m, h, longest[i].value))
    && (!ok && partials ==> forall i | 0 <= i < |h| :: LongestFor(m, h, longest, i))
  }

  /** The positions of the cursors of all open levels, outermost first. */
  ghost function Cursors<S, V>(pb: Problem<S, V>, ids: seq<nat>, p: nat): (r: seq<nat>)
    requires WellFormed(pb) && InRange(ids, |pb.h|)
    ensures |r| == |ids| + 1
  {
    seq(|ids|, i requires 0 <= i < |ids| => CallPosition(pb, ids[i])) + [p]
  }

  ghost function SearchRankOf<S, V>(pb: Problem<S, V>, ids: seq<nat>, p: nat): int
    requires WellFormed(pb) && InRange(ids, |pb.h|)
  {
    Rank(|pb.es| + 1, Cursors(pb, ids, p), |pb.h| + 1)
  }

  lemma SkipSmaller<S, V>(pb: Problem<S, V>, ids: seq<nat>, p: nat, q: nat)
    requires WellFormed(pb) && InRange(ids, |pb.h|) && |ids| <= |pb.h| && p < q <= |pb.es| + 1
    ensures SearchRankOf(pb, ids, q) < SearchRankOf(pb, ids, p)
    ensures 0 <= SearchRankOf(pb, ids, q)
  {
    hide WellFormed, CallPosition, Rank;
    var front := Cursors(pb, ids, p)[..|ids|];
    assert front + [p] + [] == Cursors(pb, ids, p) && front + [q] == Cursors(pb, ids, q);
    MoveOnSmaller(|pb.es| + 1, front, p, [], q, |pb.h| + 1);
    RankNotNegative(pb, ids, q);
  }

  lemma RankNotNegative<S, V>(pb: Problem<S, V>, ids: seq<nat>, q: nat)
    requires WellFormed(pb) && InRange(ids, |pb.h|) && q <= |pb.es| + 1
    ensures 0 <= SearchRankOf(pb, ids, q)
  {
    hide WellFormed, CallPosition, Rank;
    forall i | 0 <= i < |ids| ensures CallPosition(pb, ids[i]) <= |pb.es| + 1 { CallAt(pb, ids[i]); }
    RankBounds(|pb.es| + 1, Cursors(pb, ids, q), |pb.h| + 1);
  }

  lemma PushSmaller<S, V>(pb: Problem<S, V>, ids: seq<nat>, id: nat, q: nat)
    requires WellFormed(pb) && InRange(ids + [id], |pb.h|) && |ids| < |pb.h| && id < |pb.h| && InRange(ids, |pb.h|)
    requires 1 <= q <= |pb.es| + 1
    ensures 0 <= SearchRankOf(pb, ids + [id], q) < SearchRankOf(pb, ids, CallPosition(pb, id))
  {
    hide WellFormed, CallPosition, Rank;
    var front := Cursors(pb, ids, CallPosition(pb, id));
    assert front + [q] == Cursors(pb, ids + [id], q);
    OpenSmaller(|pb.es| + 1, front, q, |pb.h| + 1);
    RankNotNegative(pb, ids + [id], q);
  }

  lemma PopSmaller<S, V>(pb: Problem<S, V>, ids: seq<nat>, id: nat, p: nat, q: nat)
    requires WellFormed(pb) && InRange(ids + [id], |pb.h|) && |ids| < |pb.h| && id < |pb.h| && InRange(ids, |pb.h|)
    requires p <= |pb.es| + 1 && CallPosition(pb, id) < q <= |pb.es| + 1
    ensures 0 <= SearchRankOf(pb, ids, q) < SearchRankOf(pb, ids + [id], p)
  {
    hide WellFormed, CallPosition, Rank;
    var c := CallPosition(pb, id);
    var front := Cursors(pb, ids, c)[..|ids|];
    assert front + [c] + [p] == Cursors(pb, ids + [id], p) && front + [q] == Cursors(pb, ids, q);
    MoveOnSmaller(|pb.es| + 1, front, c, [p], q, |pb.h| + 1);
    RankNotNegative(pb, ids, q);
  }

  lemma StartList<S, V(0)>(pb: Problem<S, V>, head: Node<V>, all: seq<Node<V>>)
    requires WellFormed(pb) && Carry(all, pb.es, pb.h, 0) && head.pos == 0
    requires Chain([head] + all, 0)
    ensures ListOk(pb, [head] + all, [])
  {
    assert ([head] + all)[1..] == all;
  }

  /** Puts the list head in front of all entries. */
  method AddHead<V(0)>(root: Node?<V>, ghost all: seq<Node<V>>) returns (headEntry: Node<V>)
    requires Chain(all, 1) && root == At(all, 0)
    modifies all
    ensures fresh(headEntry) && Chain([headEntry] + all, 0)
  {
    headEntry := new Node<V>.Head();
    assert root != null ==> root.prev == null && root in all;
    headEntry := InsertBefore(headEntry, root);
    ChainCons(headEntry, all, 0);
  }

  lemma StackPush<S, V(0)>(
        pb: Problem<S, V>, nodes: seq<Node<V>>, calls: seq<CallsEntry<S, V>>, s: Path<S>, p: nat, st: S)
    requires StackMirrors(pb, nodes, calls, s) && 1 <= p <= |pb.es| && pb.es[p - 1].kind == CallEntry
    ensures p < |nodes| && StackMirrors(pb, nodes, calls + [CallsEntry(nodes[p], s.st)], Extend(s, pb.es[p - 1].id, st))
  {
    hide CarriesAll, CallPosition;
    Sizes(pb, nodes);
    NodeAt(pb, nodes, p);
  }

  lemma StackPop<S, V(0)>(pb: Problem<S, V>, nodes: seq<Node<V>>, calls: seq<CallsEntry<S, V>>, s: Path<S>)
    requires StackMirrors(pb, nodes, calls, s) && |calls| > 0
    ensures WellFormed(pb) && |s.ids| == |calls| && |s.states| == |calls| && s.ids[|calls| - 1] < |pb.h|
    ensures calls[|calls| - 1].entry == At(nodes, CallPosition(pb, s.ids[|calls| - 1]))
    ensures calls[|calls| - 1].entry.id == s.ids[|calls| - 1] && calls[|calls| - 1].state == Shrink(s).st
    ensures StackMirrors(pb, nodes, calls[..|calls| - 1], Shrink(s))
  {
    hide CarriesAll, CallPosition;
    Sizes(pb, nodes);
  }


  lemma EmptyStack<S, V(0)>(pb: Problem<S, V>, nodes: seq<Node<V>>)
    requires CarriesAll(pb, nodes)
    ensures StackMirrors(pb, nodes, [], Path([], [], pb.m.init))
  {
  }

  /** What the loop of the search keeps about the list, the stack and the cursor. */
  ghost predicate Kept<S, V(0)>(
        pb: Problem<S, V>, nodes: seq<Node<V>>, calls: seq<CallsEntry<S, V>>, s: Path<S>, p: nat)
    reads nodes
  {
    ListOk(pb, nodes, s.ids) && StackMirrors(pb, nodes, calls, s) && CursorOk(pb, s.ids, p) && p <= |pb.es| + 1
  }

  lemma KeptSizes<S, V(0)>(pb: Problem<S, V>, nodes: seq<Node<V>>, calls: seq<CallsEntry<S, V>>, s: Path<S>, p: nat)
    requires Kept(pb, nodes, calls, s, p)
    ensures WellFormed(pb) && CarriesAll(pb, nodes) && |nodes| == |pb.es| + 1 == 2 * |pb.h| + 1
    ensures |calls| == |s.ids| == |s.states| <= |pb.h| && InRange(s.ids, |pb.h|) && Distinct(s.ids)
  {
    hide Mirrors, LinksAfter, CursorOk;
    Sizes(pb, nodes);
    FullIsOnto(s.ids, |pb.h|);
  }

  /** While the list is not empty, the cursor is at one of its entries; once it is empty, nothing is left. */
  lemma CursorInList<S, V(0)>(pb: Problem<S, V>, nodes: seq<Node<V>>, calls: seq<CallsEntry<S, V>>, s: Path<S>, p: nat)
    requires Kept(pb, nodes, calls, s, p)
    ensures |nodes| > 0 && (nodes[0].next != null ==> Listed(pb, SetOf(s.ids), p))
    ensures nodes[0].next == null ==> forall x | 0 <= x < |pb.es| :: pb.es[x].id in s.ids
  {
    hide ListOk, StackMirrors, SetOf;
    var q := NodeAfter(pb, nodes, s.ids, 0);
    if nodes[0].next == null {
      forall x | 0 <= x < |pb.es| ensures pb.es[x].id in s.ids {
        assert pb.es[x].id in SetOf(s.ids);
        InSetOf(s.ids, pb.es[x].id);
      }
    }
  }

  lemma InSetOf<T>(p: seq<T>, x: T)
    ensures x in SetOf(p) <==> x in p
  {
  }

  /** The cursor moves on from a call to the next listed entry. */
  lemma KeptAfterSkip<S, V(0)>(pb: Problem<S, V>, nodes: seq<Node<V>>, calls: seq<CallsEntry<S, V>>, s: Path<S>, p: nat)
    returns (q: nat)
    requires Kept(pb, nodes, calls, s, p) && Listed(pb, SetOf(s.ids), p) && pb.es[p - 1].kind == CallEntry
    ensures p < |nodes| && nodes[p].next == At(nodes, q) && NothingBetween(pb, SetOf(s.ids), p + 1, q)
    ensures Kept(pb, nodes, calls, s, q) && p < q <= |pb.es| + 1
  {
    hide ListOk, StackMirrors, NothingBetween, Listed, SetOf;
    KeptSizes(pb, nodes, calls, s, p);
    q := NodeAfter(pb, nodes, s.ids, p);
    CallIsNotLast(pb, SetOf(s.ids), p, q);
  }

  /** The cursor returns to the front once the entry under it has been lifted. */
  lemma KeptAfterPush<S, V(0)>(pb: Problem<S, V>, nodes: seq<Node<V>>, calls: seq<CallsEntry<S, V>>, t: Path<S>)
    returns (q: nat)
    requires ListOk(pb, nodes, t.ids) && StackMirrors(pb, nodes, calls, t)
    ensures |nodes| > 0 && nodes[0].next == At(nodes, q) && NothingBetween(pb, SetOf(t.ids), 1, q)
    ensures Kept(pb, nodes, calls, t, q) && 1 <= q <= |pb.es| + 1
  {
    hide ListOk, StackMirrors, NothingBetween, Listed, SetOf;
    q := NodeAfter(pb, nodes, t.ids, 0);
  }

  /** The cursor moves on from a call that was just put back. */
  lemma KeptAfterPop<S, V(0)>(pb: Problem<S, V>, nodes: seq<Node<V>>, calls: seq<CallsEntry<S, V>>, t: Path<S>, id: nat)
    returns (q: nat)
    requires WellFormed(pb) && ListOk(pb, nodes, t.ids) && StackMirrors(pb, nodes, calls, t) && id < |pb.h| &&
        id !in t.ids
    ensures var c := CallPosition(pb, id);
      && c < |nodes| && nodes[c].next == At(nodes, q) && NothingBetween(pb, SetOf(t.ids), c + 1, q)
      && Kept(pb, nodes, calls, t, q) && c < q <= |pb.es| + 1
  {
    hide ListOk, StackMirrors, NothingBetween, SetOf, CallPosition, WellFormed;
    CallAt(pb, id);
    InSetOf(t.ids, id);
    q := NodeAfter(pb, nodes, t.ids, CallPosition(pb, id));
    CallIsNotLast(pb, SetOf(t.ids), CallPosition(pb, id), q);
  }

  /** The bitset holds the operations on the stack, and the cache does not share it. */
  ghost predicate CacheMirrors<S>(cache: Cache<S>, linearized: array<bv64>, ids: seq<nat>, n: nat)
    reads cache, cache.Repr, linearized
  {
    && cache.Valid() && cache.words == linearized.Length && linearized !in cache.Repr
    && Bitset.Members(linearized[..]) == SetOf(ids) && n <= 64 * linearized.Length
  }

  /** Caches a configuration and marks its operation as linearized. */
  method Remember<S>(
        cache: Cache<S>, newEntry: CacheEntry<S>, linearized: array<bv64>, id: nat, ghost ids: seq<nat>, ghost n: nat)
    requires CacheMirrors(cache, linearized, ids, n) && id < n
    requires newEntry.linearized != linearized && newEntry.linearized.Length == linearized.Length
    modifies cache, linearized
    ensures CacheMirrors(cache, linearized, ids + [id], n) && cache.Repr == old(cache.Repr) + {newEntry.linearized}
    ensures cache.configs == old(cache.configs) + {(Bitset.Members(newEntry.linearized[..]), newEntry.state)}
  {
    hide SetOf, Bitset.Members, Contains;
    SetOfSnoc(ids, id);
    cache.Insert(newEntry);
    var _ := Bitset.Set(linearized, id);
  }

  /** Marks the last operation as not linearized. */
  method Forget<S>(cache: Cache<S>, linearized: array<bv64>, id: nat, ghost ids: seq<nat>, ghost n: nat)
    requires CacheMirrors(cache, linearized, ids + [id], n) && id < n && id !in ids
    modifies linearized
    ensures CacheMirrors(cache, linearized, ids, n)
  {
    hide Bitset.Members, Contains;
    SetOfSnoc(ids, id);
    var _ := Bitset.Clear(linearized, id);
    assert SetOf(ids) + {id} - {id} == SetOf(ids);
  }

  /** Pushes and lifts the operation whose call is `entry`. */
  method PushCall<S, V(0)>(
        entry: Node<V>, calls: seq<CallsEntry<S, V>>, state: S, headEntry: Node<V>, ghost pb: Problem<S, V>,
        ghost nodes: seq<Node<V>>, ghost s: Path<S>, ghost p: nat, ghost st: S)
    returns (pushed: seq<CallsEntry<S, V>>, next: Node?<V>, ghost q: nat)
    requires Kept(pb, nodes, calls, s, p) && Listed(pb, SetOf(s.ids), p)
    requires entry == At(nodes, p) && headEntry == At(nodes, 0) && state == s.st && entry.mate != null
    modifies nodes
    ensures Kept(pb, nodes, pushed, Extend(s, pb.es[p - 1].id, st), q)
    ensures next == At(nodes, q) && NothingBetween(pb, SetOf(s.ids) + {pb.es[p - 1].id}, 1, q)
    ensures WellFormed(pb) && InRange(s.ids, |pb.h|) && InRange(s.ids + [pb.es[p - 1].id], |pb.h|)
    ensures 0 <= SearchRankOf(pb, s.ids + [pb.es[p - 1].id], q) < SearchRankOf(pb, s.ids, p)
  {
    hide Mirrors, Kept, ListOk, StackMirrors, NothingBetween, Listed, SetOf, WellFormed, CallPosition, SearchRankOf;
    KeptSizes(pb, nodes, calls, s, p);
    NodeInList(pb, nodes, calls, s, p);
    ghost var id, t := pb.es[p - 1].id, Extend(s, pb.es[p - 1].id, st);
    SetOfSnoc(s.ids, id);
    pushed := calls + [CallsEntry(entry, state)];
    StackPush(pb, nodes, calls, s, p, st);
    LiftCall(entry, pb, nodes, s.ids, p);
    next := headEntry.next;
    q := KeptAfterPush(pb, nodes, pushed, t);
    KeptSizes(pb, nodes, pushed, t, q);
    PushSmaller(pb, s.ids, id, q);
  }

  /** Pops and puts back the last operation. */
  method PopCall<S, V(0)>(
        calls: seq<CallsEntry<S, V>>, ghost pb: Problem<S, V>, ghost nodes: seq<Node<V>>, ghost s: Path<S>,
        ghost p: nat)
    returns (popped: seq<CallsEntry<S, V>>, id: int, state: S, next: Node?<V>, ghost q: nat)
    requires Kept(pb, nodes, calls, s, p) && |calls| > 0
    modifies nodes
    ensures |s.states| == |s.ids| > 0 && id == s.ids[|s.ids| - 1] < |pb.h| && state == Shrink(s).st
    ensures WellFormed(pb) && Kept(pb, nodes, popped, Shrink(s), q) && next == At(nodes, q)
    ensures NothingBetween(pb, SetOf(Shrink(s).ids), CallPosition(pb, s.ids[|s.ids| - 1]) + 1, q)
    ensures InRange(s.ids, |pb.h|) && InRange(Shrink(s).ids, |pb.h|)
    ensures 0 <= SearchRankOf(pb, Shrink(s).ids, q) < SearchRankOf(pb, s.ids, p)
  {
    hide Mirrors, ListOk, StackMirrors, NothingBetween, Listed, SetOf, WellFormed, CallPosition, SearchRankOf, Shrink,
        CursorOk;
    KeptSizes(pb, nodes, calls, s, p);
    StackPop(pb, nodes, calls, s);
    ShrinkFields(s);
    ghost var t, last := Shrink(s), s.ids[|s.ids| - 1];
    var callsTop := calls[|calls| - 1];
    state := callsTop.state;
    id := callsTop.entry.id;
    popped := calls[..|calls| - 1];
    CallAt(pb, last);
    UnliftCall(callsTop.entry, pb, nodes, t.ids, last);
    next := callsTop.entry.next;
    q := KeptAfterPop(pb, nodes, popped, t, last);
    PopSmaller(pb, t.ids, last, p, q);
  }

  lemma NodeInList<S, V(0)>(pb: Problem<S, V>, nodes: seq<Node<V>>, calls: seq<CallsEntry<S, V>>, s: Path<S>, p: nat)
    requires Kept(pb, nodes, calls, s, p) && Listed(pb, SetOf(s.ids), p)
    ensures StackMirrors(pb, nodes, calls, s) && ListOk(pb, nodes, s.ids) && WellFormed(pb)
    ensures 1 <= p <= |pb.es| && p < |nodes| && nodes[p].id == pb.es[p - 1].id < |pb.h| && pb.es[p - 1].id !in s.ids
    ensures nodes[p].mate != null <==> pb.es[p - 1].kind == CallEntry
    ensures nodes[p].mate != null ==>
      && nodes[p].value == pb.h[nodes[p].id].input && nodes[p].mate.value == pb.h[nodes[p].id].output
      && p == CallPosition(pb, pb.es[p - 1].id)
  {
    hide ListOk, StackMirrors, SetOf, WellFormed, CallPosition;
    KeptSizes(pb, nodes, calls, s, p);
    NodeOfEntry(pb, nodes, s.ids, p);
  }

  lemma StartSearch<S, V(0)>(pb: Problem<S, V>, head: Node<V>, all: seq<Node<V>>, longest: Longest)
    requires Represents(pb.es, pb.h) && Carry(all, pb.es, pb.h, 0) && Chain([head] + all, 0)
    requires |longest| == |pb.h| && forall i | 0 <= i < |longest| :: longest[i] == None
    ensures WellFormed(pb) && WellTimed(pb.h) && At([head] + all, 0) == head && At([head] + all, 1) == At(all, 0)
    ensures Kept(pb, [head] + all, [], Path([], [], pb.m.init), 1)
    ensures Inv(pb, longest, Path([], [], pb.m.init), 1, {})
    ensures SetOf<nat>([]) == {} && InRange([], |pb.h|)
  {
    hide Inv, Mirrors, Chain, LinksAfter, CarriesEntry, StackMirrors;
    StartKeepsInv(pb, longest);
    assert head.pos == 0 by { ChainStart([head] + all); }
    StartList(pb, head, all);
    EmptyStack(pb, [head] + all);
    TimesAreOrdered(pb);
  }

  lemma ChainStart<V(0)>(l: seq<Node<V>>)
    requires l != [] && Chain(l, 0)
    ensures l[0].pos == 0
  {
  }

  lemma TimesAreOrdered<S, V>(pb: Problem<S, V>)
    requires WellFormed(pb)
    ensures WellTimed(pb.h)
  {
    forall i | 0 <= i < |pb.h| ensures pb.h[i].call <= pb.h[i].ret {
      assert IsCallOf(pb.es, pb.h, i);
    }
  }

  /** A tried call is passed over. */
  lemma SkipCall<S, V(0)>(
        pb: Problem<S, V>, nodes: seq<Node<V>>, longest: Longest, calls: seq<CallsEntry<S, V>>, s: Path<S>, p: nat,
        configs: set<(set<nat>, S)>)
    returns (q: nat)
    requires Kept(pb, nodes, calls, s, p) && Inv(pb, longest, s, p, configs)
    requires Listed(pb, SetOf(s.ids), p) && pb.es[p - 1].kind == CallEntry && pb.es[p - 1].id < |pb.h|
    requires Tried(pb.m, pb.h, pb.partials, longest, SetOf(s.ids), s.st, pb.es[p - 1].id)
    ensures p < |nodes| && nodes[p].next == At(nodes, q)
    ensures Kept(pb, nodes, calls, s, q) && Inv(pb, longest, s, q, configs)
    ensures WellFormed(pb) && InRange(s.ids, |pb.h|) && 0 <= SearchRankOf(pb, s.ids, q) < SearchRankOf(pb, s.ids, p)
  {
    hide Kept, Inv, Listed, SetOf, Tried, WellFormed, SearchRankOf, NothingBetween;
    KeptSizes(pb, nodes, calls, s, p);
    q := KeptAfterSkip(pb, nodes, calls, s, p);
    SkipKeepsInv(pb, longest, s, p, configs, q);
    SkipSmaller(pb, s.ids, p, q);
  }

  lemma RejectedIsTried<S, V>(pb: Problem<S, V>, longest: Longest, done: set<nat>, st: S, id: nat)
    requires id < |pb.h| && !pb.m.step(st, pb.h[id].input, pb.h[id].output).0
    ensures Tried(pb.m, pb.h, pb.partials, longest, done, st, id)
  {
  }

  lemma HitInCache<S(!new), V(!new)>(
        pb: Problem<S, V>, longest: Longest, s: Path<S>, p: nat, configs: set<(set<nat>, S)>, id: nat, st: S, found: S)
    requires EqualIsCongruence(pb.m) && Inv(pb, longest, s, p, configs)
    requires id < |pb.h| && id !in s.ids && pb.m.step(s.st, pb.h[id].input, pb.h[id].output) == (true, st)
    requires (SetOf(s.ids) + {id}, found) in configs && pb.m.equal(st, found)
    ensures Tried(pb.m, pb.h, pb.partials, longest, SetOf(s.ids), s.st, id)
  {
    hide EqualIsCongruence, PathOk, CacheOk, StackOk, LevelOk, RecordsOk, SetOf, Tried;
    HitIsTried(pb, longest, s, configs, id, st, found);
  }

  /** The stack is empty and every call that may come first was tried. */
  lemma FailedSearch<S, V>(pb: Problem<S, V>, longest: Longest, s: Path<S>, p: nat, configs: set<(set<nat>, S)>)
    requires WellTimed(pb.h) && Inv(pb, longest, s, p, configs) && s.ids == []
    requires Listed(pb, SetOf(s.ids), p) && pb.es[p - 1].kind == ReturnEntry
    ensures !Linearizable(pb.m, pb.h) && Reported(pb.m, pb.h, false, pb.partials, longest)
  {
    hide StackOk, CacheOk, LevelOk, LongestFor, Listed, StepTaken, Linearizable;
    assert SetOf(s.ids) == {};
    ExhaustedAtReturn(pb, longest, longest, s, p);
    ExhaustedIsFailure(pb, longest);
  }

  /** All entries were lifted: the stack is a linearization. */
  lemma SucceededSearch<S, V>(pb: Problem<S, V>, longest: Longest, s: Path<S>, p: nat, configs: set<(set<nat>, S)>)
    requires WellTimed(pb.h) && Inv(pb, longest, s, p, configs)
    requires forall x | 0 <= x < |pb.es| :: pb.es[x].id in s.ids
    ensures Linearizes(pb.m, pb.h, s.ids) && |s.ids| == |pb.h|
  {
    hide StackOk, CacheOk, LevelOk, RecordsOk, Accepts, PathOk;
    EmptyListIsSuccess(pb, s);
  }

  lemma Improve<S, V>(pb: Problem<S, V>, was: Longest, now: Longest, s: Path<S>, p: nat, configs: set<(set<nat>, S)>)
    requires Inv(pb, was, s, p, configs) && (if pb.partials then IsImproved(was, now, s.ids) else now == was)
    ensures NoShorter(was, now) && RecordsOk(pb.m, pb.h, now) && (pb.partials ==> Recorded(now, SetOf(s.ids), []))
  {
    hide StackOk, CacheOk, LevelOk, PathOk, SetOf;
    if pb.partials {
      ImprovedRecords(pb, was, now, s);
    }
  }

  /** Nothing is left to try at the innermost level. */
  lemma PopInv<S, V>(
        pb: Problem<S, V>, was: Longest, now: Longest, s: Path<S>, p: nat, configs: set<(set<nat>, S)>, q: nat)
    requires Inv(pb, was, s, p, configs) && Listed(pb, SetOf(s.ids), p) && pb.es[p - 1].kind == ReturnEntry
    requires |s.ids| > 0 && (if pb.partials then IsImproved(was, now, s.ids) else now == was)
    requires WellFormed(pb) && InRange(s.ids, |pb.h|) && |s.states| == |s.ids|
    requires NothingBetween(pb, SetOf(Shrink(s).ids), CallPosition(pb, s.ids[|s.ids| - 1]) + 1, q)
    ensures Inv(pb, now, Shrink(s), q, configs)
  {
    hide *;
    Improve(pb, was, now, s, p, configs);
    PopKeepsInv(pb, was, now, s, p, configs, q);
  }


  lemma CarrySize<V(0)>(nodes: seq<Node<V>>, es: seq<Entry<V>>, h: seq<Operation<V>>)
    requires Represents(es, h) && Carry(nodes, es, h, 0)
    ensures |nodes| / 2 == |h|
  {
  }

  lemma StartCache<S>(cache: Cache<S>, linearized: array<bv64>, n: nat)
    requires cache.Valid() && cache.words == linearized.Length && cache.Repr == {}
    requires Bitset.Members(linearized[..]) == {} && n <= 64 * linearized.Length
    ensures CacheMirrors(cache, linearized, [], n)
  {
    hide Bitset.Members, Contains;
  }

  lemma CacheFacts<S>(cache: Cache<S>, linearized: array<bv64>, ids: seq<nat>, n: nat)
    requires CacheMirrors(cache, linearized, ids, n)
    ensures cache.Valid() && cache.words == linearized.Length && linearized !in cache.Repr
    ensures Bitset.Members(linearized[..]) == SetOf(ids) && n <= 64 * linearized.Length
  {
    hide Bitset.Members, Contains, SetOf;
  }

  lemma PushInv<S, V>(
        pb: Problem<S, V>, longest: Longest, s: Path<S>, p: nat, configs: set<(set<nat>, S)>, id: nat, st: S, q: nat)
    requires Inv(pb, longest, s, p, configs) && Listed(pb, SetOf(s.ids), p) && pb.es[p - 1].kind == CallEntry &&
        pb.es[p - 1].id == id
    requires id < |pb.h| && pb.m.step(s.st, pb.h[id].input, pb.h[id].output) == (true, st)
    requires NothingBetween(pb, SetOf(s.ids) + {id}, 1, q)
    ensures Inv(pb, longest, Extend(s, id, st), q, configs + {(SetOf(s.ids) + {id}, st)})
    ensures Extend(s, id, st).ids == s.ids + [id] && Extend(s, id, st).st == st
  {
    hide Inv, Listed, NothingBetween, SetOf;
    PushKeepsInv(pb, longest, s, p, configs, st, q);
  }

  /** The search so far: list, stack, cursor, records, cache. */
  ghost predicate Searching<S, V(0)>(
        pb: Problem<S, V>, nodes: seq<Node<V>>, calls: seq<CallsEntry<S, V>>, s: Path<S>, p: nat,
        longest: array<Option<seq<nat>>>, cache: Cache<S>, linearized: array<bv64>)
    reads nodes, longest, cache, cache.Repr, linearized
  {
    && Kept(pb, nodes, calls, s, p)
    && Inv(pb, longest[..], s, p, cache.configs)
    && CacheMirrors(cache, linearized, s.ids, |pb.h|)
    && WellFormed(pb) && InRange(s.ids, |pb.h|) && longest.Length == |pb.h|
    && longest as object != linearized && (forall r | r in cache.Repr :: longest as object != r)
  }

  lemma SearchingFacts<S, V(0)>(
        pb: Problem<S, V>, nodes: seq<Node<V>>, calls: seq<CallsEntry<S, V>>, s: Path<S>, p: nat,
        longest: array<Option<seq<nat>>>, cache: Cache<S>, linearized: array<bv64>)
    ensures Searching(pb, nodes, calls, s, p, longest, cache, linearized) <==>
      && Kept(pb, nodes, calls, s, p) && Inv(pb, longest[..], s, p, cache.configs)
      && CacheMirrors(cache, linearized, s.ids, |pb.h|)
      && WellFormed(pb) && InRange(s.ids, |pb.h|) && longest.Length == |pb.h|
      && longest as object != linearized && (forall r | r in cache.Repr :: longest as object != r)
  {
    hide Kept, Inv, CacheMirrors, WellFormed, InRange;
  }

  lemma AtNode<V(0)>(nodes: seq<Node<V>>, p: nat)
    requires p < |nodes|
    ensures At(nodes, p) == nodes[p]
  {
  }

  /** One turn of the loop at a call entry. */
  method TryCall<S(!new), V(!new, 0)>(
        model: Model<S, V>, entry: Node<V>, calls: seq<CallsEntry<S, V>>, state: S, headEntry: Node<V>, cache: Cache<S>,
        linearized: array<bv64>, longest: array<Option<seq<nat>>>, ghost pb: Problem<S, V>, ghost nodes: seq<Node<V>>,
        ghost s: Path<S>, ghost p: nat)
    returns (calls': seq<CallsEntry<S, V>>, state': S, next: Node?<V>, ghost s': Path<S>, ghost p': nat)
    requires Searching(pb, nodes, calls, s, p, longest, cache, linearized) && pb.m == model && EqualIsCongruence(model)
    requires Listed(pb, SetOf(s.ids), p) && entry == At(nodes, p) && entry.mate != null && headEntry == At(nodes, 0) &&
        state == s.st
    modifies nodes, cache, linearized
    ensures Searching(pb, nodes, calls', s', p', longest, cache, linearized)
    ensures next == At(nodes, p') && state' == s'.st && fresh(cache.Repr - old(cache.Repr))
    ensures |s'.ids| <= |s.ids| + 1
    ensures WellFormed(pb) && InRange(s.ids, |pb.h|) && InRange(s'.ids, |pb.h|)
    ensures 0 <= SearchRankOf(pb, s'.ids, p') < SearchRankOf(pb, s.ids, p)
  {
    hide *;
    SearchingFacts(pb, nodes, calls, s, p, longest, cache, linearized);
    NodeInList(pb, nodes, calls, s, p);
    AtNode(nodes, p);
    calls', state', s' := calls, state, s;
    var matching := entry.mate;
    var (accepted, newState) := model.step(state, entry.value, matching.value);
    assert model.step(state, entry.value, matching.value) == (accepted, newState);
    if accepted {
      CacheFacts(cache, linearized, s.ids, |pb.h|);
      var newLinearized := Bitset.Clone(linearized);
      newLinearized := Bitset.Set(newLinearized, entry.id);
      var newCacheEntry := CacheEntry(newLinearized, newState);
      var hit, found := cache.CacheContains(model, newCacheEntry);
      if !hit {
        ghost var id, configs := entry.id, cache.configs;
        Remember(cache, newCacheEntry, linearized, entry.id, s.ids, |pb.h|);
        calls', next, p' := PushCall(entry, calls, state, headEntry, pb, nodes, s, p, newState);
        PushInv(pb, longest[..], s, p, configs, id, newState, p');
        s', state' := Extend(s, id, newState), newState;
      } else {
        HitInCache(pb, longest[..], s, p, cache.configs, entry.id, newState, found);
        p' := SkipCall(pb, nodes, longest[..], calls, s, p, cache.configs);
        next := entry.next;
      }
    } else {
      RejectedIsTried(pb, longest[..], SetOf(s.ids), s.st, entry.id);
      p' := SkipCall(pb, nodes, longest[..], calls, s, p, cache.configs);
      next := entry.next;
    }
    SearchingFacts(pb, nodes, calls', s', p', longest, cache, linearized);
  }

  /** One turn of the loop at a return entry, with a stack that is not empty. */
  method Backtrack<S, V(0)>(
        computePartial: bool, calls: seq<CallsEntry<S, V>>, cache: Cache<S>, linearized: array<bv64>,
        longest: array<Option<seq<nat>>>, ghost pb: Problem<S, V>, ghost nodes: seq<Node<V>>, ghost s: Path<S>,
        ghost p: nat)
    returns (calls': seq<CallsEntry<S, V>>, state': S, next: Node?<V>, ghost s': Path<S>, ghost p': nat)
    requires Searching(pb, nodes, calls, s, p, longest, cache, linearized) && pb.partials == computePartial
    requires Listed(pb, SetOf(s.ids), p) && pb.es[p - 1].kind == ReturnEntry && |calls| > 0
    modifies nodes, longest, linearized
    ensures Searching(pb, nodes, calls', s', p', longest, cache, linearized)
    ensures next == At(nodes, p') && state' == s'.st && |s'.ids| + 1 == |s.ids|
    ensures WellFormed(pb) && InRange(s.ids, |pb.h|) && InRange(s'.ids, |pb.h|)
    ensures 0 <= SearchRankOf(pb, s'.ids, p') < SearchRankOf(pb, s.ids, p)
  {
    hide *;
    SearchingFacts(pb, nodes, calls, s, p, longest, cache, linearized);
    StackOfSearch(pb, nodes, calls, s, p);
    ghost var records := longest[..];
    if computePartial {
      RecordLongest(longest, calls, s.ids);
    }
    s' := Shrink(s);
    ghost var last := s.ids[|s.ids| - 1];
    var id: int;
    calls', id, state', next, p' := PopCall(calls, pb, nodes, s, p);
    Forget(cache, linearized, id, s'.ids, |pb.h|);
    PopInv(pb, records, longest[..], s, p, cache.configs, p');
    SearchingFacts(pb, nodes, calls', s', p', longest, cache, linearized);
  }

  lemma StackOfSearch<S, V(0)>(pb: Problem<S, V>, nodes: seq<Node<V>>, calls: seq<CallsEntry<S, V>>, s: Path<S>, p: nat)
    requires Kept(pb, nodes, calls, s, p)
    ensures HoldsIds(calls, s.ids) && |s.states| == |s.ids| == |calls|
    ensures |calls| > 0 ==> Shrink(s).ids + [s.ids[|s.ids| - 1]] == s.ids && s.ids[|s.ids| - 1] !in Shrink(s).ids
  {
    hide *;
    KeptSizes(pb, nodes, calls, s, p);
    StackIds(pb, nodes, calls, s, p);
    if |calls| > 0 { LastIsNew(s); }
  }

  lemma StackIds<S, V(0)>(pb: Problem<S, V>, nodes: seq<Node<V>>, calls: seq<CallsEntry<S, V>>, s: Path<S>, p: nat)
    requires Kept(pb, nodes, calls, s, p)
    ensures HoldsIds(calls, s.ids)
  {
    hide CursorOk, ListOk, CarriesAll, CallPosition;
  }

  lemma LastIsNew<S>(s: Path<S>)
    requires |s.states| == |s.ids| > 0 && Distinct(s.ids)
    ensures Shrink(s).ids + [s.ids[|s.ids| - 1]] == s.ids && s.ids[|s.ids| - 1] !in Shrink(s).ids
  {
  }

  /** Every operation is recorded with the complete linearization. */
  method RecordAll(longest: array<Option<seq<nat>>>, sequence: seq<nat>)
    modifies longest
    ensures forall i | 0 <= i < longest.Length :: longest[i] == Some(sequence)
  {
    for i := 0 to longest.Length
      invariant forall j | 0 <= j < i :: longest[j] == Some(sequence)
    {
      longest[i] := Some(sequence);
    }
  }

  lemma ReportSuccess<S, V>(m: Model<S, V>, h: seq<Operation<V>>, partials: bool, longest: Longest, p: seq<nat>)
    requires WellTimed(h) && Linearizes(m, h, p) && |longest| == |h| &&
        forall i | 0 <= i < |longest| :: longest[i] == Some(p)
    ensures Linearizable(m, h) && Reported(m, h, true, partials, longest) && RecordsOk(m, h, longest)
  {
    FullPartialIsLinearization(m, h, p);
    FullIsOnto(p, |h|);
    hide Linearizes, LongestFor, PartiallyLinearizes;
  }

  /** At every moment of the search, also when it is killed, the records are partial linearizations. */
  lemma RecordsSoFar<S, V>(pb: Problem<S, V>, longest: Longest, s: Path<S>, p: nat, configs: set<(set<nat>, S)>)
    requires Inv(pb, longest, s, p, configs)
    ensures RecordsOk(pb.m, pb.h, longest)
  {
    hide StackOk, CacheOk, LevelOk, PathOk, RecordsOk;
  }

  /** Everything as it is before the first turn of the loop. */
  method SetUp<S, V(0)>(model: Model<S, V>, history: seq<Entry<V>>, ghost pb: Problem<S, V>)
    returns (
        entry: Node?<V>, headEntry: Node<V>, linearized: array<bv64>, cache: Cache<S>, longest: array<Option<seq<nat>>>,
        ghost nodes: seq<Node<V>>)
    requires Represents(history, pb.h) && pb.es == history && pb.m == model
    ensures Searching(pb, nodes, [], Path([], [], model.init), 1, longest, cache, linearized)
    ensures entry == At(nodes, 1) && headEntry == At(nodes, 0) && WellTimed(pb.h)
    ensures fresh(nodes) && fresh(linearized) && fresh(cache) && fresh(cache.Repr) && fresh(longest)
  {
    hide *;
    ghost var entries;
    entry, entries := MakeLinkedEntries(history, pb.h);
    var len := Length(entry, entries, 1);
    var n := len / 2;
    CarrySize(entries, history, pb.h);
    linearized := Bitset.NewBitset(n);
    cache := new Cache<S>(linearized.Length);
    longest := new Option<seq<nat>>[n](_ => None);
    headEntry := AddHead(entry, entries);
    nodes := [headEntry] + entries;
    StartSearch(pb, headEntry, entries, longest[..]);
    StartCache(cache, linearized, n);
    SearchingFacts(pb, nodes, [], Path([], [], model.init), 1, longest, cache, linearized);
  }

  /**
   * Searches for a linearization of `history`. `kill(t)` is what the t-th read of the kill flag sees;
   * `killed` says that the search gave up because of it; what it has recorded by then is sound, too. It looks before
   * its first turn, and a successful search has looked at least once for each operation.
   */
  method CheckSingle<S(!new), V(!new, 0)>(
        model: Model<S, V>, history: seq<Entry<V>>, computePartial: bool, kill: nat -> bool, ghost h: seq<Operation<V>>)
    returns (ok: bool, longest: array<Option<seq<nat>>>, ghost killed: bool)
    requires Represents(history, h) && EqualIsCongruence(model)
    ensures ok ==> Linearizable(model, h)
    ensures !ok && !killed ==> !Linearizable(model, h)
    ensures killed ==> !ok && exists t: nat :: kill(t)
    ensures h != [] && kill(0) ==> killed
    ensures ok ==> forall t: nat | t < |h| :: !kill(t)
    ensures RecordsOk(model, h, longest[..])
    ensures !killed ==> Reported(model, h, ok, computePartial, longest[..])
  {
    hide *;
    ghost var pb := Problem(model, h, history, computePartial);
    killed := false;
    var entry, headEntry, linearized, cache;
    ghost var nodes;
    entry, headEntry, linearized, cache, longest, nodes := SetUp(model, history, pb);
    var calls: seq<CallsEntry<S, V>> := [];
    var state := model.init;
    ghost var s, p := Path([], [], model.init), 1;
    SearchingFacts(pb, nodes, calls, s, p, longest, cache, linearized);
    var t := 0;
    while headEntry.next != null
      invariant Searching(pb, nodes, calls, s, p, longest, cache, linearized)
      invariant entry == At(nodes, p) && state == s.st && headEntry == At(nodes, 0)
      invariant fresh(nodes) && fresh(linearized) && fresh(cache) && fresh(cache.Repr) && fresh(longest)
      invariant WellFormed(pb) && InRange(s.ids, |h|)
      invariant |s.ids| <= t && forall u: nat | u < t :: !kill(u)
      decreases SearchRankOf(pb, s.ids, p)
    {
      SearchingFacts(pb, nodes, calls, s, p, longest, cache, linearized);
      RecordsSoFar(pb, longest[..], s, p, cache.configs);
      if kill(t) {
        ok, killed := false, true;
        return;
      }
      t := t + 1;
      CursorInList(pb, nodes, calls, s, p);
      AtNode(nodes, 0);
      NodeInList(pb, nodes, calls, s, p);
      AtNode(nodes, p);
      if entry.mate != null {
        calls, state, entry, s, p :=
            TryCall(model, entry, calls, state, headEntry, cache, linearized, longest, pb, nodes, s, p);
      } else {
        if |calls| == 0 {
          KeptSizes(pb, nodes, calls, s, p);
          FailedSearch(pb, longest[..], s, p, cache.configs);
          ok := false;
          return;
        }
        calls, state, entry, s, p := Backtrack(computePartial, calls, cache, linearized, longest, pb, nodes, s, p);
      }
    }
    SearchingFacts(pb, nodes, calls, s, p, longest, cache, linearized);
    CursorInList(pb, nodes, calls, s, p);
    AtNode(nodes, 0);
    SucceededSearch(pb, longest[..], s, p, cache.configs);
    StackOfSearch(pb, nodes, calls, s, p);
    var sequence := CollectIds(calls, s.ids);
    RecordAll(longest, sequence);
    ReportSuccess(model, h, computePartial, longest[..], sequence);
    ok := true;
  }
}
