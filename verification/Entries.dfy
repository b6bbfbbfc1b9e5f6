/** From recorded operations or events to the entry sequence the search works on. */
module Entries {
  import opened FiniteSets
  import opened Linearizability
  import opened LinkedEntries

  // ----- operations with times

  /** Entries by time; at equal times a call comes before a return. */
  predicate Less<V>(a: Entry<V>, b: Entry<V>) {
    if a.time != b.time then a.time < b.time else a.kind == CallEntry && b.kind == ReturnEntry
  }

  ghost predicate SortedByTime<V>(es: seq<Entry<V>>) {
    forall i, j | 0 <= i < j < |es| :: !Less(es[j], es[i])
  }

  /** `r` is `es` rearranged: r[k] is es[perm[k]]. */
  ghost predicate Rearranged<V>(es: seq<Entry<V>>, r: seq<Entry<V>>, perm: seq<nat>) {
    && |r| == |es| == |perm| && InRange(perm, |es|) && Distinct(perm)
    && forall k | 0 <= k < |r| :: r[k] == es[perm[k]]
  }

  /** `r` is the first i of `es`, sorted, and `perm` says from where. */
  ghost predicate SortedUpTo<V>(es: seq<Entry<V>>, i: nat, r: seq<Entry<V>>, perm: seq<nat>)
    requires i <= |es|
  {
    && SortedByTime(r) && multiset(r) == multiset(es[..i])
    && |r| == i == |perm| && InRange(perm, i) && Distinct(perm) && forall k | 0 <= k < |r| :: r[k] == es[perm[k]]
  }

  /** The library sort. It is not stable, so callers use no more than: sorted, and a rearrangement. */
  method SortByTime<V>(es: seq<Entry<V>>) returns (r: seq<Entry<V>>, ghost perm: seq<nat>)
    ensures SortedByTime(r) && multiset(r) == multiset(es) && Rearranged(es, r, perm)
  {
    r, perm := [], [];
    for i := 0 to |es|
      invariant SortedUpTo(es, i, r, perm)
    {
      hide *;
      var k := 0;
      while k < |r| && !Less(es[i], r[k])
        invariant 0 <= k <= |r| && forall j | 0 <= j < k :: !Less(es[i], r[j])
      {
        k := k + 1;
      }
      InsertOne(es, i, r, perm, k);
      r := r[..k] + [es[i]] + r[k..];
      perm := perm[..k] + [i] + perm[k..];
    }
    assert es[..|es|] == es;
  }

  lemma InsertOne<V>(es: seq<Entry<V>>, i: nat, r: seq<Entry<V>>, perm: seq<nat>, k: nat)
    requires i < |es| && SortedUpTo(es, i, r, perm) && k <= |r|
    requires (forall j | 0 <= j < k :: !Less(es[i], r[j])) && (k < |r| ==> Less(es[i], r[k]))
    ensures k <= |perm| && SortedUpTo(es, i + 1, r[..k] + [es[i]] + r[k..], perm[..k] + [i] + perm[k..])
  {
    hide SortedByTime, Less, InRange, Distinct;
    InsertMultiset(r, es, i, k);
    InsertSorted(r, es[i], k);
    InsertRearranged(es, r, perm, i, k);
  }

  lemma InsertMultiset<V>(r: seq<Entry<V>>, es: seq<Entry<V>>, i: nat, k: nat)
    requires i < |es| && k <= |r| && multiset(r) == multiset(es[..i])
    ensures multiset(r[..k] + [es[i]] + r[k..]) == multiset(es[..i + 1])
  {
    assert es[..i + 1] == es[..i] + [es[i]] && r == r[..k] + r[k..];
  }

  lemma InsertSorted<V>(r: seq<Entry<V>>, e: Entry<V>, k: nat)
    requires SortedByTime(r) && k <= |r|
    requires (forall j | 0 <= j < k :: !Less(e, r[j])) && (k < |r| ==> Less(e, r[k]))
    ensures SortedByTime(r[..k] + [e] + r[k..])
  {
    var s := r[..k] + [e] + r[k..];
    forall i, j | 0 <= i < j < |s| ensures !Less(s[j], s[i]) {
      if i == k {
        assert s[j] == r[j - 1] && (j - 1 > k ==> !Less(r[j - 1], r[k]));
      } else if j == k {
        assert s[i] == r[i];
      } else {
        assert s[i] == r[if i < k then i else i - 1] && s[j] == r[if j < k then j else j - 1];
      }
    }
  }

  lemma InsertRearranged<V>(es: seq<Entry<V>>, r: seq<Entry<V>>, perm: seq<nat>, i: nat, k: nat)
    requires i < |es| && |r| == |perm| == i && InRange(perm, i) && Distinct(perm) && k <= i
    requires forall j | 0 <= j < i :: r[j] == es[perm[j]]
    ensures var q := perm[..k] + [i] + perm[k..]; var s := r[..k] + [es[i]] + r[k..];
      InRange(q, i + 1) && Distinct(q) && forall j | 0 <= j < |s| :: s[j] == es[q[j]]
  {
    var q := perm[..k] + [i] + perm[k..];
    assert forall j | 0 <= j < |q| :: q[j] == if j < k then perm[j] else if j == k then i else perm[j - 1];
  }

  ghost function PositionOf(perm: seq<nat>, x: nat): (k: nat)
    requires x in perm
    ensures k < |perm| && perm[k] == x
  {
    var k: nat :| k < |perm| && perm[k] == x; k
  }

  function EntriesOf<V>(history: seq<Operation<V>>): (es: seq<Entry<V>>)
    ensures |es| == 2 * |history|
    ensures forall i | 0 <= i < |history| ::
      && es[2 * i] == Entry(CallEntry, history[i].input, i, history[i].call, history[i].clientId)
      && es[2 * i + 1] == Entry(ReturnEntry, history[i].output, i, history[i].ret, history[i].clientId)
  {
    if history == [] then [] else
      var n := |history| - 1;
      var o := history[n];
      EntriesOf(history[..n]) +
      [Entry(CallEntry, o.input, n, o.call, o.clientId), Entry(ReturnEntry, o.output, n, o.ret, o.clientId)]
  }

  /** The history with entry positions instead of times. */
  ghost function Positions<V>(history: seq<Operation<V>>, perm: seq<nat>): (g: seq<Operation<V>>)
    requires forall k: nat | k < 2 * |history| :: k in perm
  {
    seq(|history|, i requires 0 <= i < |history| =>
      Operation(history[i].clientId, history[i].input, PositionOf(perm, 2 * i), history[i].output,
          PositionOf(perm, 2 * i + 1)))
  }

  lemma {:induction false} PositionsOrdered<V>(
        history: seq<Operation<V>>, r: seq<Entry<V>>, perm: seq<nat>, a: nat, b: nat)
    requires SortedByTime(r) && Rearranged(EntriesOf(history), r, perm) && a < 2 * |history| && b < 2 * |history|
    requires a in perm && b in perm && Less(EntriesOf(history)[a], EntriesOf(history)[b])
    ensures PositionOf(perm, a) < PositionOf(perm, b)
  {
    var i, j := PositionOf(perm, a), PositionOf(perm, b);
    assert r[i] == EntriesOf(history)[a] && r[j] == EntriesOf(history)[b];
  }

  /**
   * Sorted entries with calls first: an operation precedes another exactly when it returned strictly before the other's
   * call.
   */
  lemma {:induction false} PositionsKeepOrder<V>(history: seq<Operation<V>>, r: seq<Entry<V>>, perm: seq<nat>)
    requires WellTimed(history) && SortedByTime(r) && Rearranged(EntriesOf(history), r, perm)
    requires forall k: nat | k < 2 * |history| :: k in perm
    ensures SameUpToTime(history, Positions(history, perm))
    ensures forall i | 0 <= i < |history| :: Positions(history, perm)[i].call < Positions(history, perm)[i].ret
  {
    hide SortedByTime, Rearranged, PositionOf;
    var g := Positions(history, perm);
    forall i, j | 0 <= i < |history| && 0 <= j < |history|
      ensures history[i].ret < history[j].call <==> g[i].ret < g[j].call
    {
      if history[i].ret < history[j].call {
        PositionsOrdered(history, r, perm, 2 * i + 1, 2 * j);
      } else {
        PositionsOrdered(history, r, perm, 2 * j, 2 * i + 1);
      }
    }
    forall i | 0 <= i < |history| ensures g[i].call < g[i].ret {
      PositionsOrdered(history, r, perm, 2 * i, 2 * i + 1);
    }
  }

  lemma {:induction false} PositionsRepresent<V>(history: seq<Operation<V>>, r: seq<Entry<V>>, perm: seq<nat>)
    requires Rearranged(EntriesOf(history), r, perm)
    requires forall k: nat | k < 2 * |history| :: k in perm
    requires forall i | 0 <= i < |history| :: Positions(history, perm)[i].call < Positions(history, perm)[i].ret
    ensures Represents(r, Positions(history, perm))
  {
    var g := Positions(history, perm);
    forall i | 0 <= i < |g| ensures IsCallOf(r, g, i) && IsReturnOf(r, g, i) {
      assert r[g[i].call] == EntriesOf(history)[2 * i] && r[g[i].ret] == EntriesOf(history)[2 * i + 1];
    }
    forall k | 0 <= k < |r|
      ensures r[k].id < |g| && k == (if r[k].kind == CallEntry then g[r[k].id].call else g[r[k].id].ret) {
      var x := perm[k];
      assert x == 2 * (x / 2) + x % 2;
      var i := x / 2;
      assert r[k] == EntriesOf(history)[x];
      assert x == 2 * i || x == 2 * i + 1;
    }
  }

  lemma NoEntries<V>(history: seq<Operation<V>>)
    ensures EntriesOf(history[..0]) == []
  {
  }

  lemma EntriesSnoc<V>(history: seq<Operation<V>>, id: nat)
    requires id < |history|
    ensures var o := history[id];
      EntriesOf(history[..id + 1]) == EntriesOf(history[..id])
        + [Entry(CallEntry, o.input, id, o.call, o.clientId), Entry(ReturnEntry, o.output, id, o.ret, o.clientId)]
  {
    assert history[..id + 1][..id] == history[..id];
  }

  /** Sorted entries stand for the history with their positions for times. */
  lemma SortedStandFor<V>(history: seq<Operation<V>>, r: seq<Entry<V>>, perm: seq<nat>)
    requires WellTimed(history) && SortedByTime(r) && Rearranged(EntriesOf(history), r, perm)
    ensures forall k: nat | k < 2 * |history| :: k in perm
    ensures Represents(r, Positions(history, perm)) && SameUpToTime(history, Positions(history, perm))
  {
    hide SortedByTime, PositionOf, Represents, SameUpToTime, EntriesOf;
    FullIsOnto(perm, 2 * |history|);
    PositionsKeepOrder(history, r, perm);
    PositionsRepresent(history, r, perm);
  }

  method MakeEntries<V>(history: seq<Operation<V>>) returns (entries: seq<Entry<V>>, ghost g: seq<Operation<V>>)
    requires WellTimed(history)
    ensures SortedByTime(entries) && multiset(entries) == multiset(EntriesOf(history))
    ensures Represents(entries, g) && SameUpToTime(history, g)
  {
    hide *;
    var unsorted: seq<Entry<V>> := [];
    NoEntries(history);
    for id := 0 to |history|
      invariant unsorted == EntriesOf(history[..id])
    {
      var elem := history[id];
      EntriesSnoc(history, id);
      unsorted := unsorted + [Entry(CallEntry, elem.input, id, elem.call, elem.clientId)];
      unsorted := unsorted + [Entry(ReturnEntry, elem.output, id, elem.ret, elem.clientId)];
    }
    assert history[..|history|] == history;
    ghost var perm;
    entries, perm := SortByTime(unsorted);
    SortedStandFor(history, entries, perm);
    g := Positions(history, perm);
  }

  // ----- events, in the order they happened

  datatype EventKind = CallEvent | ReturnEvent

  datatype Event<V> = Event(clientId: int, kind: EventKind, value: V, id: int)

  /** Every identifier occurs exactly twice: in a call, and later in its return. */
  ghost predicate PairedEvents<V>(events: seq<Event<V>>) {
    && (forall i, j | 0 <= i < j < |events| && events[i].id == events[j].id ::
          events[i].kind == CallEvent && events[j].kind == ReturnEvent)
    && (forall i | 0 <= i < |events| :: HasPartner(events, i))
  }

  ghost predicate HasPartner<V>(events: seq<Event<V>>, i: nat)
    requires i < |events|
  {
    exists j: nat | j < |events| && j != i :: events[j].id == events[i].id
  }

  /** `m` numbers the identifiers of `events` with the numbers below their count, each once. */
  ghost predicate Numbers<V>(events: seq<Event<V>>, m: map<int, nat>) {
    && (forall i | 0 <= i < |events| :: events[i].id in m)
    && (forall x | x in m :: m[x] < |m|)
    && (forall x, y | x in m && y in m && m[x] == m[y] :: x == y)
    && (forall k: nat | k < |m| :: Used(m, k))
  }

  ghost predicate Used(m: map<int, nat>, k: nat) {
    exists x :: x in m && m[x] == k
  }

  lemma NextNumber<V>(events: seq<Event<V>>, m: map<int, nat>, v: Event<V>)
    requires Numbers(events, m)
    ensures v.id in m ==> Numbers(events + [v], m)
    ensures v.id !in m ==> Numbers(events + [v], m[v.id := |m|])
  {
    if v.id !in m {
      var n := m[v.id := |m|];
      assert n.Keys == m.Keys + {v.id};
      assert |n| == |m| + 1 by { assert |n.Keys| == |m.Keys| + 1; }
      forall k: nat | k < |n| ensures Used(n, k) {
        if k < |m| {
          assert Used(m, k);
          var x :| x in m && m[x] == k;
          assert x in n && n[x] == k;
        } else {
          assert v.id in n && n[v.id] == k;
        }
      }
    }
  }

  ghost predicate RenumberedBy<V>(events: seq<Event<V>>, e: seq<Event<V>>, m: map<int, nat>)
    requires Numbers(events, m)
  {
    |e| == |events| && forall i | 0 <= i < |e| :: e[i] == events[i].(id := m[events[i].id])
  }

  /** Only identifiers of events have numbers. */
  ghost predicate OnlyIds<V>(events: seq<Event<V>>, m: map<int, nat>) {
    forall x | x in m :: exists i | 0 <= i < |events| :: events[i].id == x
  }

  lemma MoreIds<V>(events: seq<Event<V>>, m: map<int, nat>, v: Event<V>, id: nat)
    requires OnlyIds(events, m)
    ensures OnlyIds(events + [v], m) && OnlyIds(events + [v], m[v.id := id])
  {
    forall x | x in m ensures exists i | 0 <= i < |events + [v]| :: (events + [v])[i].id == x {
      var i :| 0 <= i < |events| && events[i].id == x;
      assert (events + [v])[i].id == x;
    }
    assert (events + [v])[|events|].id == v.id;
  }

  /** Events of one operation stay so, those of different ones too, and nothing but identifiers changes. */
  ghost predicate SameButIds<V>(events: seq<Event<V>>, e: seq<Event<V>>) {
    && |e| == |events|
    && (forall i | 0 <= i < |e| :: e[i] == events[i].(id := e[i].id))
    && (forall i, j | 0 <= i < |e| && 0 <= j < |e| :: e[i].id == e[j].id <==> events[i].id == events[j].id)
  }

  lemma RenumberingSeparates<V>(events: seq<Event<V>>, e: seq<Event<V>>, m: map<int, nat>)
    requires Numbers(events, m) && RenumberedBy(events, e, m)
    ensures SameButIds(events, e)
  {
  }

  lemma NothingNumbered<V>(events: seq<Event<V>>)
    ensures Numbers(events[..0], map[]) && RenumberedBy(events[..0], [], map[]) && OnlyIds(events[..0], map[])
  {
  }

  /** One more event, with its old number or the next one. */
  lemma RenumberedSnoc<V>(events: seq<Event<V>>, e: seq<Event<V>>, m: map<int, nat>, v: Event<V>)
    requires Numbers(events, m) && RenumberedBy(events, e, m) && OnlyIds(events, m)
    ensures var n := if v.id in m then m else m[v.id := |m|];
      && |n| == (if v.id in m then |m| else |m| + 1)
      && Numbers(events + [v], n) && OnlyIds(events + [v], n)
      && RenumberedBy(events + [v], e + [Event(v.clientId, v.kind, v.value, n[v.id])], n)
  {
    hide Numbers, OnlyIds;
    NextNumber(events, m, v);
    MoreIds(events, m, v, |m|);
    NumberedAll(events, m);
    if v.id !in m { assert m[v.id := |m|].Keys == m.Keys + {v.id}; }
  }

  lemma NumberedAll<V>(events: seq<Event<V>>, m: map<int, nat>)
    requires Numbers(events, m)
    ensures forall i | 0 <= i < |events| :: events[i].id in m
  {
  }

  method Renumber<V>(events: seq<Event<V>>) returns (e: seq<Event<V>>, ghost numbering: map<int, nat>)
    ensures SameButIds(events, e)
    ensures Numbers(events, numbering) && RenumberedBy(events, e, numbering) && OnlyIds(events, numbering)
  {
    hide *;
    e := [];
    var m: map<int, nat> := map[];
    var id := 0;
    NothingNumbered(events);
    for i := 0 to |events|
      invariant id == |m| && Numbers(events[..i], m) && RenumberedBy(events[..i], e, m) && OnlyIds(events[..i], m)
    {
      var v := events[i];
      RenumberedSnoc(events[..i], e, m, v);
      if v.id in m {
        e := e + [Event(v.clientId, v.kind, v.value, m[v.id])];
      } else {
        e := e + [Event(v.clientId, v.kind, v.value, id)];
        m := m[v.id := id];
        id := id + 1;
      }
      assert events[..i + 1] == events[..i] + [v];
    }
    assert events[..|events|] == events;
    numbering := m;
    RenumberingSeparates(events, e, m);
  }

  ghost predicate IsAt<V>(e: seq<Event<V>>, i: nat, kind: EventKind, id: int) {
    i < |e| && e[i].kind == kind && e[i].id == id
  }

  /** An operation's events, by the number that its identifier gets. */
  lemma EventsOf<V>(events: seq<Event<V>>, m: map<int, nat>, id: nat) returns (a: nat, b: nat)
    requires PairedEvents(events) && Numbers(events, m) && id < |m| && OnlyIds(events, m)
    ensures a < b < |events| && events[a].id == events[b].id && events[a].id in m && m[events[a].id] == id
  {
    hide PairedEvents;
    var x := IdOf(events, m, id);
    var i: nat :| i < |events| && events[i].id == x;
    var j := Partner(events, i);
    a, b := if i < j then i else j, if i < j then j else i;
  }

  lemma IdOf<V>(events: seq<Event<V>>, m: map<int, nat>, id: nat) returns (x: int)
    requires Numbers(events, m) && id < |m|
    ensures x in m && m[x] == id
  {
    assert Used(m, id);
    x :| x in m && m[x] == id;
  }

  lemma Partner<V>(events: seq<Event<V>>, i: nat) returns (j: nat)
    requires PairedEvents(events) && i < |events|
    ensures j < |events| && j != i && events[j].id == events[i].id
  {
    assert HasPartner(events, i);
    j :| j < |events| && j != i && events[j].id == events[i].id;
  }

  lemma BothKindsOccur<V>(events: seq<Event<V>>, e: seq<Event<V>>, m: map<int, nat>, id: nat)
    requires PairedEvents(events) && Numbers(events, m) && RenumberedBy(events, e, m) && id < |m|
    requires OnlyIds(events, m)
    ensures exists i: nat :: IsAt(e, i, CallEvent, id)
    ensures exists i: nat :: IsAt(e, i, ReturnEvent, id)
  {
    hide Numbers, OnlyIds, HasPartner;
    var a, b := EventsOf(events, m, id);
    assert events[a].kind == CallEvent && events[b].kind == ReturnEvent;
    NumberedAll(events, m);
    assert IsAt(e, a, CallEvent, id) && IsAt(e, b, ReturnEvent, id);
  }

  ghost function Find<V>(e: seq<Event<V>>, kind: EventKind, id: int): (i: nat)
    requires exists i: nat :: IsAt(e, i, kind, id)
    ensures IsAt(e, i, kind, id)
  {
    var i: nat :| IsAt(e, i, kind, id); i
  }

  /** `e` are paired events whose identifiers are the numbers below n. */
  ghost predicate PairedBelow<V>(e: seq<Event<V>>, n: nat) {
    && (forall i, j | 0 <= i < j < |e| && e[i].id == e[j].id :: e[i].kind == CallEvent && e[j].kind == ReturnEvent)
    && (forall i | 0 <= i < |e| :: 0 <= e[i].id < n)
    && (forall id: nat | id < n :: Occurs(e, CallEvent, id) && Occurs(e, ReturnEvent, id))
  }

  ghost predicate Occurs<V>(e: seq<Event<V>>, kind: EventKind, id: int) {
    exists i: nat :: IsAt(e, i, kind, id)
  }

  lemma RenumberedIsPaired<V>(events: seq<Event<V>>, e: seq<Event<V>>, m: map<int, nat>)
    requires PairedEvents(events) && Numbers(events, m) && RenumberedBy(events, e, m)
    requires OnlyIds(events, m)
    ensures PairedBelow(e, |m|)
  {
    hide HasPartner;
    forall id: nat | id < |m| ensures Occurs(e, CallEvent, id) && Occurs(e, ReturnEvent, id) {
      BothKindsOccur(events, e, m, id);
    }
  }

  /** The history of paired events, with indices for times. */
  ghost function EventHistory<V>(e: seq<Event<V>>, n: nat): (h: seq<Operation<V>>)
    requires PairedBelow(e, n)
    ensures |h| == n
  {
    seq(n, id requires 0 <= id < n =>
      assert Occurs(e, CallEvent, id) && Occurs(e, ReturnEvent, id);
      var c, r := Find(e, CallEvent, id), Find(e, ReturnEvent, id);
      Operation(e[c].clientId, e[c].value, c, e[r].value, r))
  }

  ghost function EntryOf<V>(v: Event<V>, k: int): Entry<V>
    requires 0 <= v.id
  {
    Entry(if v.kind == ReturnEvent then ReturnEntry else CallEntry, v.value, v.id, k, v.clientId)
  }

  method ConvertEntries<V>(events: seq<Event<V>>, ghost n: nat) returns (entries: seq<Entry<V>>)
    requires PairedBelow(events, n)
    ensures Represents(entries, EventHistory(events, n))
  {
    entries := [];
    for i := 0 to |events|
      invariant |entries| == i
      invariant forall k | 0 <= k < i :: entries[k] == EntryOf(events[k], k)
    {
      var elem := events[i];
      var kind := CallEntry;
      if elem.kind == ReturnEvent {
        kind := ReturnEntry;
      }
      entries := entries + [Entry(kind, elem.value, elem.id, i, elem.clientId)];
    }
    EventsRepresent(events, n, entries);
  }

  lemma {:induction false} EventsRepresent<V>(e: seq<Event<V>>, n: nat, entries: seq<Entry<V>>)
    requires PairedBelow(e, n) && |entries| == |e|
    requires forall k | 0 <= k < |e| :: entries[k] == EntryOf(e[k], k)
    ensures Represents(entries, EventHistory(e, n))
  {
    var h := EventHistory(e, n);
    forall k | 0 <= k < |e|
      ensures k == if entries[k].kind == CallEntry then h[entries[k].id].call else h[entries[k].id].ret
    {
      EventIsFound(e, n, k);
    }
    forall i | 0 <= i < n ensures IsCallOf(entries, h, i) && IsReturnOf(entries, h, i) && h[i].call < h[i].ret {
      HistoryAt(e, n, i);
    }
    EventCount(e, n);
  }

  lemma HistoryAt<V>(e: seq<Event<V>>, n: nat, id: nat)
    requires PairedBelow(e, n) && id < n
    ensures var o := EventHistory(e, n)[id];
      && 0 <= o.call < o.ret < |e| && IsAt(e, o.call, CallEvent, id) && IsAt(e, o.ret, ReturnEvent, id)
      && o.input == e[o.call].value && o.output == e[o.ret].value
  {
    assert Occurs(e, CallEvent, id) && Occurs(e, ReturnEvent, id);
  }

  lemma EventIsFound<V>(e: seq<Event<V>>, n: nat, k: nat)
    requires PairedBelow(e, n) && k < |e|
    ensures var o := EventHistory(e, n)[e[k].id]; k == if e[k].kind == CallEvent then o.call else o.ret
  {
    HistoryAt(e, n, e[k].id);
  }

  lemma EventCount<V>(e: seq<Event<V>>, n: nat)
    requires PairedBelow(e, n)
    ensures |e| == 2 * n
  {
    hide PairedBelow, EventHistory;
    var h := EventHistory(e, n);
    var calls := seq(n, i requires 0 <= i < n => if h[i].call >= 0 then h[i].call else 0);
    var rets := seq(n, i requires 0 <= i < n => if h[i].ret >= 0 then h[i].ret else 0);
    var p: seq<nat> := calls + rets;
    assert forall i | 0 <= i < |p| :: p[i] == if i < n then calls[i] else rets[i - n];
    forall i | 0 <= i < n ensures IsAt(e, calls[i], CallEvent, i) && IsAt(e, rets[i], ReturnEvent, i) {
      HistoryAt(e, n, i);
    }
    assert Distinct(p);
    forall k: nat | k < |e| ensures k in p {
      PairedIds(e, n, k);
      EventIsFound(e, n, k);
      assert p[if e[k].kind == CallEvent then e[k].id else n + e[k].id] == k;
    }
    OntoIsFull(p, |e|);
  }

  lemma PairedIds<V>(e: seq<Event<V>>, n: nat, k: nat)
    requires PairedBelow(e, n) && k < |e|
    ensures 0 <= e[k].id < n
  {
  }
}
