/**
 * The key/value model of a single key, the partition of a history by key, and why checking every
 * part on its own is as good as checking the whole history against a store of all keys.
 */
module KvLocality {
  import opened FiniteSets
  import opened Linearizability
  import opened Strings

  /** `op` is 0 for get, 1 for put; everything else is an append. */
  datatype KvValue = KvInput(op: nat, key: string, value: string) | KvOutput(result: string)

  type KvHistory = seq<Operation<KvValue>>

  /** The inputs and outputs recorded for operations on the store. */
  ghost predicate WellTyped(h: KvHistory) {
    forall i | 0 <= i < |h| :: h[i].input.KvInput? && h[i].output.KvOutput?
  }

  function KvStep(st: string, input: KvValue, output: KvValue): (bool, string) {
    if !input.KvInput? || !output.KvOutput? then (false, st)
    else if input.op == 0 then (output.result == st, st)
    else if input.op == 1 then (true, input.value)
    else (true, st + input.value)
  }

  /** The checker's model: one key's value. */
  function KvModel(): Model<string, KvValue> {
    Model("", KvStep, (a, b) => a == b)
  }

  type Store = map<string, string>

  function ValueOf(s: Store, key: string): string {
    if key in s then s[key] else ""
  }

  function StoreStep(s: Store, input: KvValue, output: KvValue): (bool, Store) {
    if !input.KvInput? then (false, s)
    else
      var (ok, value) := KvStep(ValueOf(s, input.key), input, output);
      (ok, s[input.key := value])
  }

  /** What the history is meant to be a history of: a store of all keys, initially empty. */
  function StoreModel(): Model<Store, KvValue> {
    Model(map[], StoreStep, (a, b) => a == b)
  }

  lemma KvEqualIsCongruence()
    ensures EqualIsCongruence(KvModel())
  {
  }

  ghost predicate HasKey(h: KvHistory, key: string, i: nat) {
    i < |h| && h[i].input.KvInput? && h[i].input.key == key
  }

  function SubHistory(h: KvHistory, key: string): KvHistory {
    if h == [] then []
    else
      var o := h[|h| - 1];
      SubHistory(h[..|h| - 1], key) + (if o.input.KvInput? && o.input.key == key then [o] else [])
  }

  /** Where the operations of `SubHistory` are in the whole history. */
  ghost predicate AreIndices(h: KvHistory, key: string, r: seq<nat>) {
    && |r| == |SubHistory(h, key)|
    && (forall j | 0 <= j < |r| :: HasKey(h, key, r[j]) && SubHistory(h, key)[j] == h[r[j]])
    && (forall i, j | 0 <= i < j < |r| :: r[i] < r[j])
    && (forall i: nat | HasKey(h, key, i) :: i in r)
  }

  lemma HasKeyFront(h: KvHistory, key: string)
    requires h != []
    ensures forall i: nat | i < |h| - 1 :: HasKey(h, key, i) <==> HasKey(h[..|h| - 1], key, i)
    ensures forall i: nat | HasKey(h, key, i) :: i < |h|
  {
  }

  lemma SubHistorySnoc(h: KvHistory, key: string)
    requires h != []
    ensures SubHistory(h, key) == SubHistory(h[..|h| - 1], key) + (if HasKey(h, key, |h| - 1) then [h[|h| - 1]] else [])
  {
  }

  lemma SnocFinds(h: KvHistory, key: string, r: seq<nat>, s: seq<nat>)
    requires h != [] && s == if HasKey(h, key, |h| - 1) then r + [|h| - 1] else r
    requires forall i: nat | HasKey(h[..|h| - 1], key, i) :: i in r
    ensures forall i: nat | HasKey(h, key, i) :: i in s
  {
    HasKeyFront(h, key);
    hide HasKey;
    forall i: nat | HasKey(h, key, i) ensures i in s {
      if i == |h| - 1 { assert s[|r|] == i; } else { assert i in r; }
    }
  }

  lemma IndicesSnoc(h: KvHistory, key: string, r: seq<nat>)
    requires h != [] && AreIndices(h[..|h| - 1], key, r)
    ensures AreIndices(h, key, if HasKey(h, key, |h| - 1) then r + [|h| - 1] else r)
  {
    hide SubHistory, HasKey;
    var n := |h| - 1;
    var s := if HasKey(h, key, n) then r + [n] else r;
    HasKeyFront(h, key);
    SubHistorySnoc(h, key);
    FrontIndices(h, key, r);
    SnocFinds(h, key, r, s);
  }

  lemma FrontIndices(h: KvHistory, key: string, r: seq<nat>)
    requires h != [] && AreIndices(h[..|h| - 1], key, r)
    ensures forall j | 0 <= j < |r| :: r[j] < |h| - 1 && HasKey(h, key, r[j])
  {
    hide SubHistory;
  }

  lemma {:induction false} SubIndices(h: KvHistory, key: string) returns (r: seq<nat>)
    ensures AreIndices(h, key, r)
  {
    if h == [] {
      r := [];
    } else {
      hide AreIndices;
      r := SubIndices(h[..|h| - 1], key);
      IndicesSnoc(h, key, r);
      if HasKey(h, key, |h| - 1) { r := r + [|h| - 1]; }
    }
  }

  // ----- a linearization of one key's operations, in terms of the whole history

  /** `q` orders operations of `key`, respects real time, and is accepted from the value `st`. */
  ghost predicate KeyOrder(h: KvHistory, key: string, st: string, q: seq<nat>) {
    && InRange(q, |h|) && Distinct(q)
    && (forall j | 0 <= j < |q| :: HasKey(h, key, q[j]))
    && RespectsRealTime(h, q)
    && Accepts(KvModel(), h, st, q)
  }

  ghost predicate Renames(sub: KvHistory, h: KvHistory, idx: seq<nat>, r: seq<nat>, q: seq<nat>) {
    && |idx| == |sub| && |r| == |q| && InRange(r, |sub|) && InRange(q, |h|)
    && (forall j | 0 <= j < |idx| :: idx[j] < |h| && sub[j] == h[idx[j]])
    && (forall j | 0 <= j < |q| :: q[j] == idx[r[j]])
  }

  lemma {:induction false} RenamedAccepts(
        sub: KvHistory, h: KvHistory, idx: seq<nat>, r: seq<nat>, q: seq<nat>, st: string)
    requires Renames(sub, h, idx, r, q)
    ensures Accepts(KvModel(), sub, st, r) <==> Accepts(KvModel(), h, st, q)
    decreases |r|
  {
    if r != [] {
      assert StepOf(KvModel(), sub, st, r[0]) == StepOf(KvModel(), h, st, q[0]);
      RenamedAccepts(sub, h, idx, r[1..], q[1..], StepOf(KvModel(), sub, st, r[0]).1);
    }
  }

  lemma RenamedRealTime(sub: KvHistory, h: KvHistory, idx: seq<nat>, r: seq<nat>, q: seq<nat>)
    requires Renames(sub, h, idx, r, q)
    ensures RespectsRealTime(sub, r) <==> RespectsRealTime(h, q)
  {
    assert forall j | 0 <= j < |q| :: sub[r[j]] == h[q[j]];
    if RespectsRealTime(h, q) {
      forall i, j | 0 <= i < j < |r| ensures !(sub[r[j]].ret < sub[r[i]].call) {
        assert !(h[q[j]].ret < h[q[i]].call);
      }
    }
    if RespectsRealTime(sub, r) {
      forall i, j | 0 <= i < j < |r| ensures !(h[q[j]].ret < h[q[i]].call) {
        assert !(sub[r[j]].ret < sub[r[i]].call);
      }
    }
  }

  /** The operations of a key, linearized on their own, are an order of that key's operations in the whole history. */
  lemma FromSubHistory(h: KvHistory, key: string, r: seq<nat>) returns (q: seq<nat>)
    requires Linearizes(KvModel(), SubHistory(h, key), r)
    ensures KeyOrder(h, key, "", q)
    ensures forall i: nat | HasKey(h, key, i) :: i in q
  {
    hide Accepts, RespectsRealTime, SubHistory;
    var sub := SubHistory(h, key);
    var idx := SubIndices(h, key);
    q := seq(|r|, j requires 0 <= j < |r| => idx[r[j]]);
    RenamedAccepts(sub, h, idx, r, q, "");
    RenamedRealTime(sub, h, idx, r, q);
    FullIsOnto(r, |sub|);
    forall i: nat | HasKey(h, key, i) ensures i in q {
      var j :| 0 <= j < |idx| && idx[j] == i;
      assert j in r;
      var k :| 0 <= k < |r| && r[k] == j;
      assert q[k] == i;
    }
  }

  lemma ToSubHistory(h: KvHistory, key: string, q: seq<nat>) returns (r: seq<nat>)
    requires KeyOrder(h, key, "", q)
    requires forall i: nat | HasKey(h, key, i) :: i in q
    ensures Linearizes(KvModel(), SubHistory(h, key), r)
  {
    hide Accepts, RespectsRealTime, SubHistory;
    var sub := SubHistory(h, key);
    var idx := SubIndices(h, key);
    r := IndicesOf(idx, q);
    RenamedAccepts(sub, h, idx, r, q, "");
    RenamedRealTime(sub, h, idx, r, q);
    forall j: nat | j < |sub| ensures j in r {
      assert idx[j] in q;
      var k :| 0 <= k < |q| && q[k] == idx[j];
      assert idx[r[k]] == idx[j];
      assert r[k] == j;
    }
    OntoIsFull(r, |sub|);
  }

  lemma IndicesOf(idx: seq<nat>, q: seq<nat>) returns (r: seq<nat>)
    requires forall x | x in q :: x in idx
    ensures |r| == |q| && InRange(r, |idx|) && forall j | 0 <= j < |q| :: idx[r[j]] == q[j]
  {
    r := [];
    for k := 0 to |q|
      invariant |r| == k && InRange(r, |idx|) && forall j | 0 <= j < k :: idx[r[j]] == q[j]
    {
      assert q[k] in q;
      var i: nat :| i < |idx| && idx[i] == q[k];
      r := r + [i];
    }
  }

  // ----- from the whole store to one key

  function ForKey(h: KvHistory, key: string, p: seq<nat>): (q: seq<nat>)
    ensures forall x | x in q :: x in p
  {
    if p == [] then []
    else
      (if p[0] < |h| && h[p[0]].input.KvInput? && h[p[0]].input.key == key then [p[0]] else []) + ForKey(h, key, p[1..])
  }

  /** A step of the store is a step of the operation's key, and leaves other keys alone. */
  lemma StoreStepAtKey(h: KvHistory, s: Store, i: nat)
    requires WellTyped(h) && i < |h|
    ensures var (ok, t) := StepOf(StoreModel(), h, s, i);
      && StepOf(KvModel(), h, ValueOf(s, h[i].input.key), i) == (ok, ValueOf(t, h[i].input.key))
      && forall key | key != h[i].input.key :: ValueOf(t, key) == ValueOf(s, key)
  {
  }

  lemma RealTimeTail(h: KvHistory, p: seq<nat>)
    requires p != [] && InRange(p, |h|) && Distinct(p) && RespectsRealTime(h, p)
    ensures InRange(p[1..], |h|) && Distinct(p[1..]) && RespectsRealTime(h, p[1..]) && p[0] !in p[1..]
    ensures forall x | x in p[1..] :: x < |h| && !(h[x].ret < h[p[0]].call)
  {
    var r := p[1..];
    assert forall j | 0 <= j < |r| :: r[j] == p[j + 1];
  }

  lemma {:induction false} ForKeyIsOrder(h: KvHistory, key: string, s: Store, p: seq<nat>)
    requires WellTyped(h) && InRange(p, |h|) && Distinct(p) && RespectsRealTime(h, p) && Accepts(StoreModel(), h, s, p)
    ensures KeyOrder(h, key, ValueOf(s, key), ForKey(h, key, p))
    decreases |p|
  {
    hide StoreModel, StepOf, KvModel, RespectsRealTime, Distinct, ValueOf, KeyOrder;
    if p == [] {
      EmptyKeyOrder(h, key, ValueOf(s, key));
    } else {
      var i := p[0];
      var t := StepOf(StoreModel(), h, s, i).1;
      RealTimeTail(h, p);
      ForKeyIsOrder(h, key, t, p[1..]);
      StoreStepAtKey(h, s, i);
      if h[i].input.key == key {
        ConsKeyOrder(h, key, ValueOf(s, key), i, ForKey(h, key, p[1..]));
      } else {
        assert [] + ForKey(h, key, p[1..]) == ForKey(h, key, p[1..]);
      }
    }
  }

  lemma EmptyKeyOrder(h: KvHistory, key: string, st: string)
    ensures KeyOrder(h, key, st, [])
  {
  }

  lemma {:induction false} ForKeyKeepsAll(h: KvHistory, key: string, p: seq<nat>, i: nat)
    requires HasKey(h, key, i) && i in p
    ensures i in ForKey(h, key, p)
    decreases |p|
  {
    if p[0] != i {
      ForKeyKeepsAll(h, key, p[1..], i);
    }
  }

  lemma ConsKeyOrder(h: KvHistory, key: string, st: string, i: nat, q: seq<nat>)
    requires HasKey(h, key, i) && i !in q && StepOf(KvModel(), h, st, i).0
    requires KeyOrder(h, key, StepOf(KvModel(), h, st, i).1, q)
    requires forall x | x in q :: !(h[x].ret < h[i].call)
    ensures KeyOrder(h, key, st, [i] + q)
  {
    hide StepOf, KvModel;
    assert ([i] + q)[1..] == q;
    assert forall j | 0 < j < |[i] + q| :: ([i] + q)[j] == q[j - 1];
  }

  // ----- from the keys to the whole store

  /** The operations `left` are still to be ordered; `rem` orders those of each key, from what the store `s` holds. */
  ghost predicate Pending(h: KvHistory, s: Store, rem: map<string, seq<nat>>, left: set<nat>) {
    && (forall k | k in rem :: KeyOrder(h, k, ValueOf(s, k), rem[k]) && SetOf(rem[k]) <= left)
    && (forall x | x in left :: InItsOrder(h, rem, x))
  }

  ghost predicate InItsOrder(h: KvHistory, rem: map<string, seq<nat>>, x: nat) {
    x < |h| && h[x].input.KvInput? && h[x].input.key in rem && x in rem[h[x].input.key]
  }

  lemma {:induction false} EarliestReturn(h: KvHistory, left: set<nat>) returns (x: nat)
    requires left != {} && forall y | y in left :: y < |h|
    ensures x in left && forall y | y in left :: h[x].ret <= h[y].ret
    decreases |left|
  {
    x :| x in left;
    var rest := left - {x};
    if rest != {} {
      var y := EarliestReturn(h, rest);
      if h[y].ret < h[x].ret {
        x := y;
      }
    }
  }

  /**
   * The heart of locality: of the operations that come first in their keys' orders, the one in the order of the
   * operation that returns first is preceded by none of the operations left.
   */
  lemma FirstOfEarliest(h: KvHistory, s: Store, rem: map<string, seq<nat>>, left: set<nat>) returns (y: nat)
    requires WellTimed(h) && Pending(h, s, rem, left) && left != {}
    ensures InItsOrder(h, rem, y) && y == rem[h[y].input.key][0] && y in left
    ensures forall z | z in left :: !(h[z].ret < h[y].call)
  {
    hide Accepts, KvModel, ValueOf;
    assert forall x | x in left :: InItsOrder(h, rem, x);
    var x := EarliestReturn(h, left);
    var k := h[x].input.key;
    var q := rem[k];
    assert KeyOrder(h, k, ValueOf(s, k), q) && x in q;
    y := q[0];
    assert HasKey(h, k, q[0]);
    assert y in SetOf(q);
    var j :| 0 <= j < |q| && q[j] == x;
    assert !(h[x].ret < h[y].call) by {
      if j > 0 { assert !(h[q[j]].ret < h[q[0]].call); }
    }
  }

  lemma TailKeyOrder(h: KvHistory, k: string, st: string, q: seq<nat>)
    requires q != [] && KeyOrder(h, k, st, q)
    ensures HasKey(h, k, q[0]) && StepOf(KvModel(), h, st, q[0]).0
    ensures KeyOrder(h, k, StepOf(KvModel(), h, st, q[0]).1, q[1..]) && q[0] !in q[1..]
  {
    hide StepOf, KvModel;
    RealTimeTail(h, q);
    assert forall j | 0 <= j < |q[1..]| :: q[1..][j] == q[j + 1];
  }

  lemma PendingAfter(h: KvHistory, s: Store, rem: map<string, seq<nat>>, left: set<nat>, y: nat)
    requires WellTyped(h) && Pending(h, s, rem, left) && InItsOrder(h, rem, y) && y == rem[h[y].input.key][0]
    ensures StepOf(StoreModel(), h, s, y).0
    ensures Pending(h, StepOf(StoreModel(), h, s, y).1, rem[h[y].input.key := rem[h[y].input.key][1..]], left - {y})
  {
    hide KeyOrder, StepOf, StoreModel, KvModel, ValueOf;
    var k := h[y].input.key;
    var q := rem[k];
    var t := StepOf(StoreModel(), h, s, y).1;
    StoreStepAtKey(h, s, y);
    TailKeyOrder(h, k, ValueOf(s, k), q);
    var shorter := rem[k := q[1..]];
    assert q == [y] + q[1..];
    forall j | j in shorter ensures KeyOrder(h, j, ValueOf(t, j), shorter[j]) && SetOf(shorter[j]) <= left - {y} {
      assert SetOf(rem[j]) <= left;
      if j != k {
        assert y !in rem[j] by { OtherKey(h, j, ValueOf(s, j), rem[j], y); }
      }
    }
    forall x | x in left - {y} ensures InItsOrder(h, shorter, x) {
      assert InItsOrder(h, rem, x);
    }
  }

  lemma OtherKey(h: KvHistory, j: string, st: string, q: seq<nat>, y: nat)
    requires KeyOrder(h, j, st, q) && y < |h| && h[y].input.KvInput? && h[y].input.key != j
    ensures y !in q
  {
  }

  /** Orders of the keys' operations can be merged into an order of all of them. */
  lemma {:induction false} Merge(h: KvHistory, s: Store, rem: map<string, seq<nat>>, left: set<nat>)
    returns (p: seq<nat>)
    requires WellTyped(h) && WellTimed(h) && Pending(h, s, rem, left)
    ensures InRange(p, |h|) && Distinct(p) && (forall x :: x in p <==> x in left)
    ensures RespectsRealTime(h, p) && Accepts(StoreModel(), h, s, p)
    decreases |left|
  {
    hide StepOf, StoreModel, Pending, WellTyped, WellTimed;
    if left == {} {
      p := [];
    } else {
      var y := FirstOfEarliest(h, s, rem, left);
      PendingAfter(h, s, rem, left, y);
      var r := Merge(h, StepOf(StoreModel(), h, s, y).1, rem[h[y].input.key := rem[h[y].input.key][1..]], left - {y});
      p := [y] + r;
      assert p[1..] == r && forall j | 0 < j < |p| :: p[j] == r[j - 1];
    }
  }

  // ----- the partition

  ghost function KeysOf(h: KvHistory): set<string> {
    set i | 0 <= i < |h| && h[i].input.KvInput? :: h[i].input.key
  }

  lemma KeysOfSnoc(h: KvHistory, o: Operation<KvValue>)
    requires o.input.KvInput?
    ensures KeysOf(h + [o]) == KeysOf(h) + {o.input.key}
    ensures forall key :: SubHistory(h + [o], key) == SubHistory(h, key) + (if o.input.key == key then [o] else [])
  {
    assert (h + [o])[..|h|] == h;
    assert (h + [o])[|h|] == o;
    forall k ensures k in KeysOf(h + [o]) <==> k in KeysOf(h) || k == o.input.key {
      if k in KeysOf(h) {
        var i :| 0 <= i < |h| && h[i].input.KvInput? && h[i].input.key == k;
        assert (h + [o])[i] == h[i];
      }
    }
  }

  /** The keys in ascending order, however they come out of the map. */
  method SortKeys(keys: set<string>) returns (r: seq<string>)
    ensures Ascending(r) && SetOf(r) == keys
  {
    r := [];
    var rest := keys;
    while rest != {}
      invariant rest <= keys && Ascending(r) && SetOf(r) == keys - rest
      decreases rest
    {
      var key :| key in rest;
      rest := rest - {key};
      var k := 0;
      while k < |r| && StringLess(r[k], key)
        invariant 0 <= k <= |r| && forall j | 0 <= j < k :: StringLess(r[j], key)
      {
        k := k + 1;
      }
      assert key !in SetOf(r);
      InsertAscending(r, key, k);
      r := r[..k] + [key] + r[k..];
    }
  }

  lemma InsertAscending(r: seq<string>, key: string, k: nat)
    requires Ascending(r) && k <= |r| && key !in r
    requires (forall j | 0 <= j < k :: StringLess(r[j], key)) && (k < |r| ==> !StringLess(r[k], key))
    ensures Ascending(r[..k] + [key] + r[k..]) && SetOf(r[..k] + [key] + r[k..]) == SetOf(r) + {key}
  {
    hide StringLess;
    var s := r[..k] + [key] + r[k..];
    if k < |r| { LessIsTotal(r[k], key); }
    assert forall i | 0 <= i < |s| :: s[i] == if i < k then r[i] else if i == k then key else r[i - 1];
    forall i, j | 0 <= i < j < |s| ensures StringLess(s[i], s[j]) {
      if i == k && j > k + 1 {
        LessIsTransitive(key, r[k], r[j - 1]);
      }
    }
    forall x ensures x in s <==> x in r || x == key {
      if x in r {
        var i :| 0 <= i < |r| && r[i] == x;
        assert s[if i < k then i else i + 1] == x;
      }
      assert s[k] == key;
    }
  }

  lemma EmptyGroups()
    ensures KeysOf([]) == {} && forall key :: SubHistory([], key) == []
  {
  }

  /** The parts are the sub-histories of all keys, in ascending order of the keys. */
  ghost predicate PartsOf(h: KvHistory, keys: seq<string>, parts: seq<KvHistory>) {
    && Ascending(keys) && SetOf(keys) == KeysOf(h) && |parts| == |keys|
    && forall i | 0 <= i < |parts| :: parts[i] == SubHistory(h, keys[i])
  }

  /** One sub-history for each key, in the order of the keys. */
  method Partition(history: KvHistory) returns (ret: seq<KvHistory>)
    requires WellTyped(history)
    ensures exists keys :: PartsOf(history, keys, ret)
  {
    hide SubHistory, KeysOf;
    EmptyGroups();
    var m: map<string, KvHistory> := map[];
    for i := 0 to |history|
      invariant m.Keys == KeysOf(history[..i])
      invariant forall k :: SubHistory(history[..i], k) == if k in m then m[k] else []
    {
      var v := history[i];
      var key := v.input.key;
      KeysOfSnoc(history[..i], v);
      assert history[..i] + [v] == history[..i + 1];
      m := m[key := (if key in m then m[key] else []) + [v]];
    }
    assert history[..|history|] == history;
    var sorted := SortKeys(m.Keys);
    ret := [];
    for i := 0 to |sorted|
      invariant |ret| == i && forall j | 0 <= j < i :: ret[j] == SubHistory(history, sorted[j])
    {
      assert sorted[i] in SetOf(sorted);
      ret := ret + [m[sorted[i]]];
    }
    assert PartsOf(history, sorted, ret);
  }

  // ----- locality

  /** Every key's sub-history can be linearized on its own. */
  ghost predicate EachKeyLinearizable(h: KvHistory) {
    forall key | key in KeysOf(h) :: Linearizable(KvModel(), SubHistory(h, key))
  }

  lemma WholeImpliesKeys(h: KvHistory)
    requires WellTyped(h) && Linearizable(StoreModel(), h)
    ensures EachKeyLinearizable(h)
  {
    hide KeyOrder, SubHistory, WellTyped;
    var p :| Linearizes(StoreModel(), h, p);
    FullIsOnto(p, |h|);
    forall key | key in KeysOf(h) ensures Linearizable(KvModel(), SubHistory(h, key)) {
      ForKeyIsOrder(h, key, map[], p);
      forall i: nat | HasKey(h, key, i) ensures i in ForKey(h, key, p) {
        ForKeyKeepsAll(h, key, p, i);
      }
      var r := ToSubHistory(h, key, ForKey(h, key, p));
    }
  }

  /** An order of each key's operations, from the empty store. */
  lemma {:induction false} OrdersOfKeys(h: KvHistory, keys: set<string>) returns (rem: map<string, seq<nat>>)
    requires forall key | key in keys :: Linearizable(KvModel(), SubHistory(h, key))
    ensures rem.Keys == keys
    ensures forall key | key in rem ::
        KeyOrder(h, key, "", rem[key]) && forall i: nat | HasKey(h, key, i) :: i in rem[key]
    decreases |keys|
  {
    hide KeyOrder, SubHistory, Linearizes;
    if key :| key in keys {
      rem := OrdersOfKeys(h, keys - {key});
      assert Linearizable(KvModel(), SubHistory(h, key));
      var r :| Linearizes(KvModel(), SubHistory(h, key), r);
      var q := FromSubHistory(h, key, r);
      rem := rem[key := q];
    } else {
      rem := map[];
    }
  }

  lemma KeysImplyWhole(h: KvHistory)
    requires WellTyped(h) && WellTimed(h) && EachKeyLinearizable(h)
    ensures Linearizable(StoreModel(), h)
  {
    hide KeyOrder, RespectsRealTime, Accepts;
    var rem := OrdersOfKeys(h, KeysOf(h));
    var left := Below(|h|);
    forall x | x in left ensures InItsOrder(h, rem, x) {
      assert h[x].input.key in KeysOf(h);
      assert HasKey(h, h[x].input.key, x);
    }
    forall k | k in rem ensures SetOf(rem[k]) <= left {
      KeyOrderInRange(h, k, "", rem[k]);
    }
    var p := Merge(h, map[], rem, left);
    OntoIsFull(p, |h|);
    assert Linearizes(StoreModel(), h, p);
  }

  lemma KeyOrderInRange(h: KvHistory, k: string, st: string, q: seq<nat>)
    requires KeyOrder(h, k, st, q)
    ensures forall x | x in q :: x < |h|
  {
  }

  /**
   * Locality: the history is linearizable for the store of all keys if and only if each part that `Partition`
   * makes is linearizable for the model of a single key.
   */
  lemma Locality(h: KvHistory, keys: seq<string>, parts: seq<KvHistory>)
    requires WellTyped(h) && WellTimed(h)
    requires SetOf(keys) == KeysOf(h) && |parts| == |keys|
    requires forall i | 0 <= i < |parts| :: parts[i] == SubHistory(h, keys[i])
    ensures Linearizable(StoreModel(), h) <==> forall i | 0 <= i < |parts| :: Linearizable(KvModel(), parts[i])
  {
    hide Linearizable, SubHistory, KeysOf;
    assert EachKeyLinearizable(h) <==> forall i | 0 <= i < |parts| :: Linearizable(KvModel(), parts[i]) by {
      forall i | 0 <= i < |parts| ensures keys[i] in KeysOf(h) { assert keys[i] in SetOf(keys); }
      if forall i | 0 <= i < |parts| :: Linearizable(KvModel(), parts[i]) {
        forall key | key in KeysOf(h) ensures Linearizable(KvModel(), SubHistory(h, key)) {
          assert key in SetOf(keys);
          var i :| 0 <= i < |keys| && keys[i] == key;
          assert Linearizable(KvModel(), parts[i]);
        }
      }
    }
    if EachKeyLinearizable(h) {
      KeysImplyWhole(h);
    }
    if Linearizable(StoreModel(), h) {
      WholeImpliesKeys(h);
    }
  }
}
