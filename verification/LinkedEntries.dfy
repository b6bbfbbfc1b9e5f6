/**
 * The checker's doubly linked list of call and return entries: building it, and taking an
 * operation's two entries out of it and putting them back in place.
 */
module LinkedEntries {
  import opened Linearizability

  datatype Kind = CallEntry | ReturnEntry

  datatype Entry<V> = Entry(kind: Kind, value: V, id: nat, time: int, clientId: int)

  /**
   * The entries `es` are those of the history `h` whose operation i is called at position h[i].call
   * of `es` and returns at position h[i].ret.
   */
  ghost predicate Represents<V>(es: seq<Entry<V>>, h: seq<Operation<V>>) {
    && |es| == 2 * |h|
    && (forall i | 0 <= i < |h| :: IsCallOf(es, h, i) && IsReturnOf(es, h, i) && h[i].call < h[i].ret)
    && (forall k | 0 <= k < |es| ::
          && es[k].id < |h|
          && k == (if es[k].kind == CallEntry then h[es[k].id].call else h[es[k].id].ret))
  }

  ghost predicate IsCallOf<V>(es: seq<Entry<V>>, h: seq<Operation<V>>, i: nat)
    requires i < |h|
  {
    var k := h[i].call;
    0 <= k < |es| && es[k].kind == CallEntry && es[k].id == i && es[k].value == h[i].input
  }

  ghost predicate IsReturnOf<V>(es: seq<Entry<V>>, h: seq<Operation<V>>, i: nat)
    requires i < |h|
  {
    var k := h[i].ret;
    0 <= k < |es| && es[k].kind == ReturnEntry && es[k].id == i && es[k].value == h[i].output
  }

  // ----- the order of the list, as positions

  /**
   * Where the pointers of the nodes 0..n lead, as positions; n stands for nil in `next` and -1 in `prev`.
   * Position 0 is the list head, position k + 1 the k-th entry. Nodes that are not in the list have pointers too.
   */
  datatype Links = Links(next: seq<int>, prev: seq<int>)

  ghost predicate NextOf(live: set<int>, n: int, i: int, j: int) {
    && i < j <= n && (j < n ==> j in live)
    && forall k | i < k < j :: k !in live
  }

  ghost predicate PrevOf(live: set<int>, i: int, j: int) {
    && -1 <= j < i && (j >= 0 ==> j in live)
    && forall k | j < k < i :: k !in live
  }

  /** The list consists of the head and the positions `live`, in increasing order, linked both ways. */
  ghost predicate InOrder(l: Links, live: set<int>) {
    && |l.next| == |l.prev|
    && 0 in live
    && (forall i | i in live :: 0 <= i < |l.next|)
    && (forall i {:trigger l.next[i]} | i in live :: NextOf(live, |l.next|, i, l.next[i]))
    && (forall i {:trigger l.prev[i]} | i in live :: PrevOf(live, i, l.prev[i]))
  }

  ghost function Unlink(l: Links, x: int): Links
    requires 0 <= x < |l.next| == |l.prev| && 0 <= l.prev[x] < |l.next| && 0 <= l.next[x]
  {
    Links(l.next[l.prev[x] := l.next[x]], if l.next[x] < |l.prev| then l.prev[l.next[x] := l.prev[x]] else l.prev)
  }

  ghost function Relink(l: Links, x: int): Links
    requires 0 <= x < |l.next| == |l.prev| && 0 <= l.prev[x] < |l.next| && 0 <= l.next[x]
  {
    Links(l.next[l.prev[x] := x], if l.next[x] < |l.prev| then l.prev[l.next[x] := x] else l.prev)
  }

  lemma Neighbours(l: Links, live: set<int>, x: int)
    requires InOrder(l, live) && x in live && x > 0
    ensures 0 <= l.prev[x] < x && l.prev[x] in live && l.next[l.prev[x]] == x
    ensures x < l.next[x] <= |l.next| && (l.next[x] < |l.next| ==> l.next[x] in live && l.prev[l.next[x]] == x)
  {
    assert NextOf(live, |l.next|, x, l.next[x]) && PrevOf(live, x, l.prev[x]);
    var p, q := l.prev[x], l.next[x];
    assert NextOf(live, |l.next|, p, l.next[p]);
    if q < |l.next| {
      assert PrevOf(live, q, l.prev[q]);
    }
  }

  lemma RelinkRestores(l: Links, x: int)
    requires 0 <= x < |l.next| == |l.prev| && 0 <= l.prev[x] < x && l.next[l.prev[x]] == x
    requires x < l.next[x] <= |l.next| && (l.next[x] < |l.next| ==> l.prev[l.next[x]] == x)
    ensures Relink(Unlink(l, x), x) == l
  {
  }

  lemma InRangeStays(l: Links, live: set<int>, x: int)
    requires InOrder(l, live) && x in live && x > 0 && 0 <= l.prev[x] < |l.next| && 0 <= l.next[x]
    ensures |Unlink(l, x).next| == |l.next| && |Unlink(l, x).prev| == |l.prev|
    ensures 0 in live - {x} && forall i | i in live - {x} :: 0 <= i < |l.next|
  {
  }

  lemma UnlinkKeepsOrder(l: Links, live: set<int>, x: int)
    requires InOrder(l, live) && x in live && x > 0
    ensures 0 <= l.prev[x] < |l.next| && 0 <= l.next[x] && InOrder(Unlink(l, x), live - {x})
    ensures Relink(Unlink(l, x), x) == l
  {
    Neighbours(l, live, x);
    RelinkRestores(l, x);
    InRangeStays(l, live, x);
    hide Unlink, Relink, NextOf, PrevOf;
    var m, rest, n := Unlink(l, x), live - {x}, |l.next|;
    forall i | i in rest ensures NextOf(rest, n, i, m.next[i]) && PrevOf(rest, i, m.prev[i]) {
      assert NextOf(live, n, i, l.next[i]) && PrevOf(live, i, l.prev[i]);
      UnlinkNext(l, live, x, i);
      UnlinkPrev(l, live, x, i);
    }
  }

  lemma UnlinkNext(l: Links, live: set<int>, x: int, i: int)
    requires InOrder(l, live) && x in live && x > 0 && i in live && i != x
    requires 0 <= l.prev[x] < |l.next| && 0 <= l.next[x]
    ensures NextOf(live - {x}, |l.next|, i, Unlink(l, x).next[i])
  {
    Neighbours(l, live, x);
    assert NextOf(live, |l.next|, i, l.next[i]) && NextOf(live, |l.next|, x, l.next[x]);
    if i != l.prev[x] {
      assert l.next[i] != x by {
        if l.next[i] == x { Neighbours2(l, live, i); }
      }
    }
  }

  lemma Neighbours2(l: Links, live: set<int>, i: int)
    requires InOrder(l, live) && i in live && l.next[i] < |l.next|
    ensures l.prev[l.next[i]] == i
  {
    var q := l.next[i];
    assert NextOf(live, |l.next|, i, q) && PrevOf(live, q, l.prev[q]);
  }

  lemma UnlinkPrev(l: Links, live: set<int>, x: int, i: int)
    requires InOrder(l, live) && x in live && x > 0 && i in live && i != x
    requires 0 <= l.prev[x] < |l.next| && 0 <= l.next[x]
    ensures PrevOf(live - {x}, i, Unlink(l, x).prev[i])
  {
    Neighbours(l, live, x);
    assert PrevOf(live, i, l.prev[i]) && PrevOf(live, x, l.prev[x]);
    if i != l.next[x] && i > 0 {
      Neighbours(l, live, i);
    }
  }

  /** Both entries of an operation taken out, the call first. */
  ghost function Lifted(l: Links, live: set<int>, c: int, r: int): (m: Links)
    requires InOrder(l, live) && c in live && r in live && 0 < c < r
    ensures InOrder(m, live - {c, r}) && |m.next| == |l.next|
  {
    UnlinkKeepsOrder(l, live, c);
    UnlinkKeepsOrder(Unlink(l, c), live - {c}, r);
    assert live - {c} - {r} == live - {c, r};
    Unlink(Unlink(l, c), r)
  }

  lemma LiftedInTwoSteps(l: Links, live: set<int>, c: int, r: int)
    requires InOrder(l, live) && c in live && r in live && 0 < c < r
    ensures 0 <= l.prev[c] < c < l.next[c] < |l.next|
    ensures var m := Unlink(l, c);
      && 0 <= m.prev[r] < r < m.next[r] && m.prev[c] == l.prev[c] && m.next[c] == l.next[c] && Relink(m, c) == l
      && var d := Unlink(m, r);
      && d == Lifted(l, live, c, r) && d.prev[r] == m.prev[r] && d.next[r] == m.next[r] && Relink(d, r) == m
  {
    Neighbours(l, live, c);
    assert NextOf(live, |l.next|, c, l.next[c]);
    UnlinkKeepsOrder(l, live, c);
    Neighbours(Unlink(l, c), live - {c}, r);
    UnlinkKeepsOrder(Unlink(l, c), live - {c}, r);
  }

  // ----- nodes

  /** `mate` is the return entry of a call, and null in a return entry; `pos` is the node's position. */
  class Node<V(0)> {
    const value: V
    const mate: Node?<V>
    const id: int
    ghost const pos: int
    var next: Node?<V>
    var prev: Node?<V>

    constructor (value: V, mate: Node?<V>, id: int, ghost pos: int)
      ensures this.value == value && this.mate == mate && this.id == id && this.pos == pos
      ensures next == null && prev == null
    {
      this.value, this.mate, this.id, this.pos := value, mate, id, pos;
      next, prev := null, null;
    }

    /** The list head, whose value is the zero value. */
    constructor Head()
      ensures mate == null && id == -1 && pos == 0 && next == null && prev == null
    {
      mate, id, pos, next, prev := null, -1, 0, null, null;
    }
  }

  ghost function At<V(0)>(nodes: seq<Node<V>>, i: int): Node?<V> {
    if 0 <= i < |nodes| then nodes[i] else null
  }

  /** The pointers of `nodes` lead where `l` says. */
  ghost predicate Mirrors<V(0)>(nodes: seq<Node<V>>, l: Links)
    reads nodes
  {
    && |nodes| == |l.next| == |l.prev|
    && (forall i | 0 <= i < |nodes| :: nodes[i].pos == i)
    && (forall i {:trigger nodes[i].next} | 0 <= i < |nodes| :: nodes[i].next == At(nodes, l.next[i]))
    && (forall i {:trigger nodes[i].prev} | 0 <= i < |nodes| :: nodes[i].prev == At(nodes, l.prev[i]))
  }

  /** Puts `n` in front of `mark`; with no mark, `n` stays as it is. */
  method InsertBefore<V(0)>(n: Node<V>, mark: Node?<V>) returns (r: Node<V>)
    requires mark != null ==> n != mark && n != mark.prev && mark != mark.prev
    modifies n, if mark == null then {} else {mark, mark.prev}
    ensures r == n
    ensures mark == null ==> n.next == old(n.next) && n.prev == old(n.prev)
    ensures mark != null ==> n.next == mark && mark.prev == n && mark.next == old(mark.next)
    ensures mark != null && old(mark.prev) == null ==> n.prev == old(n.prev)
    ensures mark != null && old(mark.prev) != null ==>
      n.prev == old(mark.prev) && n.prev.next == n && n.prev.prev == old(mark.prev.prev)
  {
    if mark != null {
      var beforeMark := mark.prev;
      mark.prev := n;
      n.next := mark;
      if beforeMark != null {
        n.prev := beforeMark;
        beforeMark.next := n;
      }
    }
    r := n;
  }

  /** The nodes `l`, in this order, are linked both ways; the first has position `base`. */
  ghost predicate Chain<V(0)>(l: seq<Node<V>>, base: int)
    reads l
  {
    && (forall i | 0 <= i < |l| :: l[i].pos == base + i)
    && (forall i {:trigger l[i].next} | 0 <= i < |l| :: l[i].next == At(l, i + 1))
    && (forall i {:trigger l[i].prev} | 0 <= i < |l| :: l[i].prev == At(l, i - 1))
  }

  lemma ChainCons<V(0)>(n: Node<V>, l: seq<Node<V>>, base: int)
    requires n.pos == base && n.next == At(l, 0) && n.prev == null
    requires forall i | 0 <= i < |l| :: l[i].pos == base + 1 + i
    requires forall i {:trigger l[i].next} | 0 <= i < |l| :: l[i].next == At(l, i + 1)
    requires forall i {:trigger l[i].prev} | 0 <= i < |l| :: l[i].prev == if i == 0 then n else l[i - 1]
    ensures Chain([n] + l, base)
  {
    var m := [n] + l;
    forall i | 0 <= i < |m| ensures m[i].pos == base + i && m[i].next == At(m, i + 1) && m[i].prev == At(m, i - 1) {
      if i > 0 { assert m[i] == l[i - 1]; }
    }
  }

  method Length<V(0)>(n: Node?<V>, ghost l: seq<Node<V>>, ghost base: int) returns (len: nat)
    requires Chain(l, base) && n == At(l, 0)
    ensures len == |l|
  {
    len := 0;
    var n := n;
    while n != null
      invariant 0 <= len <= |l| && n == At(l, len)
      decreases |l| - len
    {
      n := n.next;
      len := len + 1;
    }
  }

  /** The nodes `l` carry the entries `es[from..]`, and calls know their returns. */
  ghost predicate Carry<V(0)>(l: seq<Node<V>>, es: seq<Entry<V>>, h: seq<Operation<V>>, from: nat)
    requires Represents(es, h)
  {
    && |l| == |es| - from
    && forall k {:trigger es[k]} {:trigger CarriesEntry(l, es, h, from, k)} | from <= k < |es| ::
        CarriesEntry(l, es, h, from, k)
  }

  ghost predicate CarriesEntry<V(0)>(l: seq<Node<V>>, es: seq<Entry<V>>, h: seq<Operation<V>>, from: nat, k: nat)
    requires Represents(es, h) && from <= k < |es| && |l| == |es| - from
  {
    && l[k - from].id == es[k].id && l[k - from].value == es[k].value
    && l[k - from].mate == (if es[k].kind == CallEntry then l[h[es[k].id].ret - from] else null)
  }

  lemma CarryCons<V(0)>(n: Node<V>, l: seq<Node<V>>, es: seq<Entry<V>>, h: seq<Operation<V>>, from: nat)
    requires Represents(es, h) && from < |es| && Carry(l, es, h, from + 1)
    requires n.id == es[from].id && n.value == es[from].value
    requires n.mate == (if es[from].kind == CallEntry then l[h[es[from].id].ret - from - 1] else null)
    ensures Carry([n] + l, es, h, from)
  {
    assert forall i | 0 < i < |[n] + l| :: ([n] + l)[i] == l[i - 1];
    forall k | from <= k < |es| ensures CarriesEntry([n] + l, es, h, from, k) {
      assert IsReturnOf(es, h, es[k].id);
      if k > from {
        assert CarriesEntry(l, es, h, from + 1, k);
      }
    }
  }

  /** The return entries from position `from` on are known by their operation. */
  ghost predicate Returns<V(0)>(
        known: map<int, Node<V>>, l: seq<Node<V>>, es: seq<Entry<V>>, h: seq<Operation<V>>, from: nat)
    requires Represents(es, h) && |l| == |es| - from
  {
    forall id | 0 <= id < |h| ::
        (id in known <==> h[id].ret >= from) && (id in known ==> known[id] == l[h[id].ret - from])
  }

  lemma ReturnsCons<V(0)>(
        known: map<int, Node<V>>, n: Node<V>, l: seq<Node<V>>, es: seq<Entry<V>>, h: seq<Operation<V>>, from: nat)
    requires Represents(es, h) && from < |es| && |l| == |es| - from - 1 && Returns(known, l, es, h, from + 1)
    ensures Returns(if es[from].kind == ReturnEntry then known[es[from].id := n] else known, [n] + l, es, h, from)
  {
    assert forall id | 0 <= id < |h| :: IsReturnOf(es, h, id);
    assert forall i | 0 < i < |[n] + l| :: ([n] + l)[i] == l[i - 1];
  }

  lemma NoReturns<V(0)>(es: seq<Entry<V>>, h: seq<Operation<V>>)
    requires Represents(es, h)
    ensures Returns<V>(map[], [], es, h, |es|)
  {
    assert forall id | 0 <= id < |h| :: IsReturnOf(es, h, id);
  }

  /** A call's return comes later, so it is known. */
  lemma MateIsKnown<V(0)>(known: map<int, Node<V>>, l: seq<Node<V>>, es: seq<Entry<V>>, h: seq<Operation<V>>, from: nat)
    requires Represents(es, h) && from < |es| && |l| == |es| - from - 1 && Returns(known, l, es, h, from + 1)
    ensures es[from].kind == CallEntry ==>
      var id := es[from].id;
      0 <= id < |h| && id in known && 0 <= h[id].ret - from - 1 < |l| && known[id] == l[h[id].ret - from - 1]
  {
    if es[from].kind == CallEntry { assert IsCallOf(es, h, es[from].id) && IsReturnOf(es, h, es[from].id); }
  }

  /** Builds the list of all entries, from the last one backwards. */
  method MakeLinkedEntries<V(0)>(entries: seq<Entry<V>>, ghost h: seq<Operation<V>>)
    returns (root: Node?<V>, ghost nodes: seq<Node<V>>)
    requires Represents(entries, h)
    ensures fresh(nodes) && Chain(nodes, 1) && root == At(nodes, 0) && Carry(nodes, entries, h, 0)
  {
    hide Returns, CarriesEntry, Represents;
    root := null;
    nodes := [];
    assert Returns(map[], nodes, entries, h, |entries|) by { NoReturns(entries, h); }
    var match_: map<int, Node<V>> := map[];
    var i := |entries|;
    while i > 0
      invariant 0 <= i <= |entries|
      invariant fresh(nodes) && Chain(nodes, i + 1) && root == At(nodes, 0)
      invariant Carry(nodes, entries, h, i)
      invariant Returns(match_, nodes, entries, h, i)
    {
      i := i - 1;
      var elem := entries[i];
      MateIsKnown(match_, nodes, entries, h, i);
      var mate := if elem.kind == ReturnEntry || elem.id !in match_ then null else match_[elem.id];
      var entry := new Node(elem.value, mate, elem.id, i + 1);
      ghost var rest := nodes;
      CarryCons(entry, rest, entries, h, i);
      ReturnsCons(match_, entry, rest, entries, h, i);
      if elem.kind == ReturnEntry {
        match_ := match_[elem.id := entry];
      }
      assert root != null ==> root in rest && root.prev == null;
      root := InsertBefore(entry, root);
      nodes := [entry] + rest;
      ChainCons(entry, rest, i + 1);
    }
  }

  /** Takes the call `entry` and its return out of the list. */
  method Lift<V(0)>(
        entry: Node<V>, ghost nodes: seq<Node<V>>, ghost l: Links, ghost live: set<int>, ghost c: int, ghost r: int)
    requires Mirrors(nodes, l) && InOrder(l, live)
    requires c in live && r in live && 0 < c < r && entry == nodes[c] && entry.mate == nodes[r]
    modifies nodes
    ensures Mirrors(nodes, Lifted(l, live, c, r))
  {
    LiftedInTwoSteps(l, live, c, r);
    ghost var m := Unlink(l, c);
    entry.prev.next := entry.next;
    entry.next.prev := entry.prev;
    assert Mirrors(nodes, m);
    var mate := entry.mate;
    mate.prev.next := mate.next;
    if mate.next != null {
      mate.next.prev := mate.prev;
    }
  }

  /** Undoes `Lift`: every pointer, of listed and of lifted nodes, is again what it was before. */
  method Unlift<V(0)>(
        entry: Node<V>, ghost nodes: seq<Node<V>>, ghost l: Links, ghost live: set<int>, ghost c: int, ghost r: int)
    requires InOrder(l, live) && c in live && r in live && 0 < c < r && Mirrors(nodes, Lifted(l, live, c, r))
    requires entry == nodes[c] && entry.mate == nodes[r]
    modifies nodes
    ensures Mirrors(nodes, l)
  {
    LiftedInTwoSteps(l, live, c, r);
    var mate := entry.mate;
    mate.prev.next := mate;
    if mate.next != null {
      mate.next.prev := mate;
    }
    assert Mirrors(nodes, Unlink(l, c));
    entry.prev.next := entry;
    entry.next.prev := entry;
  }
}
