/** The entry list during a search: what it holds is a function of the operations on the stack. */
module SearchList {
  import opened FiniteSets
  import opened LinkedEntries
  import opened SearchPath

  ghost predicate IsLive<V>(es: seq<Entry<V>>, done: set<nat>, q: int) {
    q == 0 || (1 <= q <= |es| && es[q - 1].id !in done)
  }

  /** The list head and the entries of operations that are not done. */
  ghost function LivePositions<V>(es: seq<Entry<V>>, done: set<nat>): set<int> {
    set q | 0 <= q <= |es| && IsLive(es, done, q)
  }

  ghost function FullLinks(n: nat): Links {
    Links(seq(n, i => i + 1), seq(n, i => i - 1))
  }

  lemma FullLinksInOrder<V>(es: seq<Entry<V>>)
    ensures InOrder(FullLinks(|es| + 1), LivePositions(es, {}))
  {
  }

  lemma LiveAfterLift<S, V>(pb: Problem<S, V>, done: set<nat>, id: nat)
    requires WellFormed(pb) && id < |pb.h| && id !in done
    ensures CallPosition(pb, id) in LivePositions(pb.es, done) && ReturnPosition(pb, id) in LivePositions(pb.es, done)
    ensures 0 < CallPosition(pb, id) < ReturnPosition(pb, id) <= |pb.es|
    ensures LivePositions(pb.es, done + {id}) ==
        LivePositions(pb.es, done) - {CallPosition(pb, id), ReturnPosition(pb, id)}
  {
    assert IsCallOf(pb.es, pb.h, id) && IsReturnOf(pb.es, pb.h, id);
    assert IsLive(pb.es, done, pb.h[id].call + 1) && IsLive(pb.es, done, pb.h[id].ret + 1);
    forall q | 0 <= q <= |pb.es|
      ensures IsLive(pb.es, done + {id}, q) <==>
          IsLive(pb.es, done, q) && q != CallPosition(pb, id) && q != ReturnPosition(pb, id)
    {
    }
  }

  ghost function ReturnPosition<S, V>(pb: Problem<S, V>, id: nat): nat
    requires WellFormed(pb) && id < |pb.h|
  {
    assert IsReturnOf(pb.es, pb.h, id);
    pb.h[id].ret + 1
  }

  /** The list's pointers once the operations `ids` were lifted in turn. */
  ghost function LinksAfter<S, V>(pb: Problem<S, V>, ids: seq<nat>): (l: Links)
    requires WellFormed(pb) && InRange(ids, |pb.h|) && Distinct(ids)
    ensures InOrder(l, LivePositions(pb.es, SetOf(ids))) && |l.next| == |pb.es| + 1
  {
    if ids == [] then
      FullLinksInOrder(pb.es);
      FullLinks(|pb.es| + 1)
    else
      var rest, id := ids[..|ids| - 1], ids[|ids| - 1];
      SetOfSnoc(rest, id);
      assert rest + [id] == ids;
      LiveAfterLift(pb, SetOf(rest), id);
      Lifted(LinksAfter(pb, rest), LivePositions(pb.es, SetOf(rest)), CallPosition(pb, id), ReturnPosition(pb, id))
  }

  lemma LinksAfterSnoc<S, V>(pb: Problem<S, V>, ids: seq<nat>, id: nat)
    requires WellFormed(pb) && InRange(ids, |pb.h|) && Distinct(ids) && id < |pb.h| && id !in ids
    ensures InRange(ids + [id], |pb.h|) && Distinct(ids + [id])
    ensures CallPosition(pb, id) in LivePositions(pb.es, SetOf(ids)) &&
        ReturnPosition(pb, id) in LivePositions(pb.es, SetOf(ids))
    ensures 0 < CallPosition(pb, id) < ReturnPosition(pb, id)
    ensures LinksAfter(pb, ids + [id]) ==
      Lifted(LinksAfter(pb, ids), LivePositions(pb.es, SetOf(ids)), CallPosition(pb, id), ReturnPosition(pb, id))
  {
    hide WellFormed, CallPosition, ReturnPosition, Lifted, LivePositions;
    assert (ids + [id])[..|ids|] == ids;
    LiveAfterLift(pb, SetOf(ids), id);
  }

  /** Following `next` from a listed position skips no listed entry. */
  lemma NextListed<S, V>(pb: Problem<S, V>, ids: seq<nat>, i: nat)
    requires WellFormed(pb) && InRange(ids, |pb.h|) && Distinct(ids)
    requires i == 0 || Listed(pb, SetOf(ids), i)
    ensures var l := LinksAfter(pb, ids);
      && i <= |pb.es| && i < l.next[i] <= |pb.es| + 1
      && NothingBetween(pb, SetOf(ids), i + 1, l.next[i])
      && (l.next[i] <= |pb.es| ==> Listed(pb, SetOf(ids), l.next[i]))
  {
    hide WellFormed, LinksAfter;
    var l := LinksAfter(pb, ids);
    var live := LivePositions(pb.es, SetOf(ids));
    assert IsLive(pb.es, SetOf(ids), i);
    assert i in live;
    assert NextOf(live, |l.next|, i, l.next[i]);
    forall x | 0 <= x < |pb.es| && i + 1 <= x + 1 < l.next[i] ensures pb.es[x].id in SetOf(ids) {
      assert x + 1 !in live;
      assert !IsLive(pb.es, SetOf(ids), x + 1);
    }
  }

  /** A listed call is not the last entry: its return comes later. */
  lemma CallIsNotLast<S, V>(pb: Problem<S, V>, done: set<nat>, p: nat, q: nat)
    requires WellFormed(pb) && Listed(pb, done, p) && pb.es[p - 1].kind == CallEntry
    requires NothingBetween(pb, done, p + 1, q)
    ensures q <= |pb.es|
  {
    assert IsReturnOf(pb.es, pb.h, pb.es[p - 1].id);
  }

  /** The nodes: the list head, then one for each entry. */
  ghost predicate CarriesAll<S, V(0)>(pb: Problem<S, V>, nodes: seq<Node<V>>)
  {
    && WellFormed(pb) && |nodes| == |pb.es| + 1
    && Carry(nodes[1..], pb.es, pb.h, 0)
  }

  lemma NodeAt<S, V(0)>(pb: Problem<S, V>, nodes: seq<Node<V>>, p: nat)
    requires CarriesAll(pb, nodes) && 1 <= p <= |pb.es|
    ensures nodes[p].id == pb.es[p - 1].id < |pb.h|
    ensures pb.es[p - 1].kind == CallEntry ==>
      && nodes[p].mate == nodes[ReturnPosition(pb, pb.es[p - 1].id)]
      && nodes[p].value == pb.h[nodes[p].id].input &&
          nodes[ReturnPosition(pb, pb.es[p - 1].id)].value == pb.h[nodes[p].id].output
      && p == CallPosition(pb, pb.es[p - 1].id)
    ensures pb.es[p - 1].kind == ReturnEntry ==> nodes[p].mate == null
  {
    var l := nodes[1..];
    assert CarriesEntry(l, pb.es, pb.h, 0, p - 1);
    var id := pb.es[p - 1].id;
    assert IsCallOf(pb.es, pb.h, id) && IsReturnOf(pb.es, pb.h, id);
    assert CarriesEntry(l, pb.es, pb.h, 0, pb.h[id].ret);
  }

  /** The list is what is left of the entries once the operations `ids` were lifted in turn. */
  ghost predicate ListOk<S, V(0)>(pb: Problem<S, V>, nodes: seq<Node<V>>, ids: seq<nat>)
    reads nodes
  {
    && CarriesAll(pb, nodes) && InRange(ids, |pb.h|) && Distinct(ids)
    && Mirrors(nodes, LinksAfter(pb, ids))
  }

  /** The cursor is at a listed entry, or the list is empty. */
  ghost predicate CursorOk<S, V>(pb: Problem<S, V>, ids: seq<nat>, p: nat) {
    Listed(pb, SetOf(ids), p) || (p == |pb.es| + 1 && NothingBetween(pb, SetOf(ids), 1, |pb.es| + 1))
  }

  lemma NodeOfEntry<S, V(0)>(pb: Problem<S, V>, nodes: seq<Node<V>>, ids: seq<nat>, p: nat)
    requires ListOk(pb, nodes, ids) && Listed(pb, SetOf(ids), p)
    ensures p < |nodes| && nodes[p].id == pb.es[p - 1].id < |pb.h| && pb.es[p - 1].id !in ids
    ensures nodes[p].mate != null <==> pb.es[p - 1].kind == CallEntry
    ensures nodes[p].mate != null ==>
      && nodes[p].value == pb.h[nodes[p].id].input && nodes[p].mate.value == pb.h[nodes[p].id].output
      && p == CallPosition(pb, pb.es[p - 1].id)
  {
    hide Mirrors, LinksAfter, CarriesAll, WellFormed;
    Sizes(pb, nodes);
    NodeAt(pb, nodes, p);
    assert pb.es[p - 1].id !in SetOf(ids);
    if pb.es[p - 1].kind == CallEntry {
      MateOf(pb, nodes, p);
    }
  }

  lemma Sizes<S, V(0)>(pb: Problem<S, V>, nodes: seq<Node<V>>)
    requires CarriesAll(pb, nodes)
    ensures WellFormed(pb) && |nodes| == |pb.es| + 1 == 2 * |pb.h| + 1
  {
  }

  /** The node after a listed one, and after the head. */
  lemma NodeAfter<S, V(0)>(pb: Problem<S, V>, nodes: seq<Node<V>>, ids: seq<nat>, i: nat) returns (q: nat)
    requires ListOk(pb, nodes, ids) && (i == 0 || Listed(pb, SetOf(ids), i))
    ensures i < |nodes| && nodes[i].next == At(nodes, q) && |nodes| == |pb.es| + 1
    ensures i < q <= |pb.es| + 1 && NothingBetween(pb, SetOf(ids), i + 1, q) &&
        (q <= |pb.es| ==> Listed(pb, SetOf(ids), q))
  {
    hide WellFormed, LinksAfter, NothingBetween, Listed;
    Sizes(pb, nodes);
    NextListed(pb, ids, i);
    q := LinksAfter(pb, ids).next[i];
  }

  method LiftCall<S, V(0)>(
        entry: Node<V>, ghost pb: Problem<S, V>, ghost nodes: seq<Node<V>>, ghost ids: seq<nat>, ghost p: nat)
    requires ListOk(pb, nodes, ids) && Listed(pb, SetOf(ids), p) && pb.es[p - 1].kind == CallEntry
    requires entry == At(nodes, p)
    modifies nodes
    ensures ListOk(pb, nodes, ids + [pb.es[p - 1].id])
  {
    hide WellFormed, Mirrors, Lifted, LivePositions, LinksAfter, InOrder, CallPosition, ReturnPosition, CarriesAll;
    Sizes(pb, nodes);
    NodeOfEntry(pb, nodes, ids, p);
    ghost var id := pb.es[p - 1].id;
    LinksAfterSnoc(pb, ids, id);
    MateOf(pb, nodes, p);
    Lift(entry, nodes, LinksAfter(pb, ids), LivePositions(pb.es, SetOf(ids)), CallPosition(pb, id),
        ReturnPosition(pb, id));
  }

  lemma MateOf<S, V(0)>(pb: Problem<S, V>, nodes: seq<Node<V>>, p: nat)
    requires CarriesAll(pb, nodes) && 1 <= p <= |pb.es| && pb.es[p - 1].kind == CallEntry
    ensures pb.es[p - 1].id < |pb.h| && p == CallPosition(pb, pb.es[p - 1].id)
    ensures ReturnPosition(pb, pb.es[p - 1].id) < |nodes| && nodes[p].mate == nodes[ReturnPosition(pb, pb.es[p - 1].id)]
  {
    hide CarriesAll, ReturnPosition, CallPosition;
    Sizes(pb, nodes);
    NodeAt(pb, nodes, p);
    LiveAfterLift(pb, {}, pb.es[p - 1].id);
  }

  method UnliftCall<S, V(0)>(
        entry: Node<V>, ghost pb: Problem<S, V>, ghost nodes: seq<Node<V>>, ghost ids: seq<nat>, ghost id: nat)
    requires ListOk(pb, nodes, ids + [id]) && id < |pb.h| && id !in ids && InRange(ids, |pb.h|) && Distinct(ids)
    requires entry == At(nodes, CallPosition(pb, id))
    modifies nodes
    ensures ListOk(pb, nodes, ids)
  {
    hide WellFormed, Mirrors, Lifted, LivePositions, LinksAfter, InOrder, CallPosition, ReturnPosition, CarriesAll;
    Sizes(pb, nodes);
    LinksAfterSnoc(pb, ids, id);
    CallAt(pb, id);
    MateOf(pb, nodes, CallPosition(pb, id));
    Unlift(entry, nodes, LinksAfter(pb, ids), LivePositions(pb.es, SetOf(ids)), CallPosition(pb, id),
        ReturnPosition(pb, id));
  }

  lemma CallAt<S, V>(pb: Problem<S, V>, id: nat)
    requires WellFormed(pb) && id < |pb.h|
    ensures 1 <= CallPosition(pb, id) <= |pb.es|
    ensures pb.es[CallPosition(pb, id) - 1].kind == CallEntry && pb.es[CallPosition(pb, id) - 1].id == id
  {
    assert IsCallOf(pb.es, pb.h, id);
  }
}
