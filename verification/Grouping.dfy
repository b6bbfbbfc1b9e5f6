/**
 * Key/value pairs: sorting them by key, distributing them over reduce tasks, and calling reduce once for
 * each key, in the sequential program's way and in the worker's way.
 */
module Grouping {
  import opened Strings

  datatype KeyValue = KeyValue(key: string, value: string)

  /** One line of output: the key and what reduce made of its values. */
  datatype Line = Line(key: string, result: string)

  /** The application: map, reduce, and the hash that distributes keys. */
  datatype App =
      App(mapf: (string, string) -> seq<KeyValue>, reducef: (string, seq<string>) -> string, ihash: string -> nat)

  /** Reduce does not depend on the order of the values. */
  ghost predicate OrderBlind(app: App) {
    forall k, vs, ws | multiset(vs) == multiset(ws) :: app.reducef(k, vs) == app.reducef(k, ws)
  }

  ghost predicate SortedByKey(s: seq<KeyValue>) {
    forall i, j | 0 <= i < j < |s| :: !StringLess(s[j].key, s[i].key)
  }

  /** The library sorts. They are not stable, so callers use no more than: sorted, and the same pairs. */
  method SortByKey(s: seq<KeyValue>) returns (r: seq<KeyValue>)
    ensures SortedByKey(r) && multiset(r) == multiset(s)
  {
    r := [];
    for i := 0 to |s|
      invariant SortedByKey(r) && multiset(r) == multiset(s[..i])
    {
      var k := 0;
      while k < |r| && !StringLess(s[i].key, r[k].key)
        invariant 0 <= k <= |r| && forall j | 0 <= j < k :: !StringLess(s[i].key, r[j].key)
      {
        k := k + 1;
      }
      InsertSorted(r, s[i], k);
      assert s[..i + 1] == s[..i] + [s[i]];
      r := Inserted(r, s[i], k);
    }
    assert s[..|s|] == s;
  }

  function Inserted<T>(r: seq<T>, e: T, k: nat): (s: seq<T>)
    requires k <= |r|
    ensures |s| == |r| + 1 && forall i | 0 <= i < |s| :: s[i] == if i < k then r[i] else if i == k then e else r[i - 1]
    ensures multiset(s) == multiset(r) + multiset{e}
  {
    assert r == r[..k] + r[k..];
    r[..k] + [e] + r[k..]
  }

  lemma InsertSorted(r: seq<KeyValue>, e: KeyValue, k: nat)
    requires SortedByKey(r) && k <= |r|
    requires (forall j | 0 <= j < k :: !StringLess(e.key, r[j].key)) && (k < |r| ==> StringLess(e.key, r[k].key))
    ensures SortedByKey(Inserted(r, e, k))
  {
    hide StringLess;
    var s := Inserted(r, e, k);
    forall i, j | 0 <= i < j < |s| ensures !StringLess(s[j].key, s[i].key) {
      if i == k {
        LaterNotLess(r, e, k, j - 1);
      } else if j == k {
        assert s[i] == r[i];
      } else {
        assert !StringLess(r[if j < k then j else j - 1].key, r[if i < k then i else i - 1].key);
      }
    }
  }

  lemma LaterNotLess(r: seq<KeyValue>, e: KeyValue, k: nat, j: nat)
    requires SortedByKey(r) && k <= j < |r| && StringLess(e.key, r[k].key)
    ensures !StringLess(r[j].key, e.key)
  {
    hide StringLess;
    if StringLess(r[j].key, e.key) {
      LessIsTransitive(r[j].key, e.key, r[k].key);
      LessIsTotal(r[k].key, r[j].key);
    }
  }

  function ValuesFor(s: seq<KeyValue>, key: string): seq<string> {
    if s == [] then [] else (if s[0].key == key then [s[0].value] else []) + ValuesFor(s[1..], key)
  }

  function Values(s: seq<KeyValue>): seq<string> {
    if s == [] then [] else [s[0].value] + Values(s[1..])
  }

  ghost function Keys(s: seq<KeyValue>): (r: set<string>) {
    set kv | kv in s :: kv.key
  }

  /** What reducing `s` must write: one line for each key, from all of its values. */
  ghost function ExpectedLines(app: App, s: seq<KeyValue>): (r: set<Line>) {
    set k | k in Keys(s) :: Line(k, app.reducef(k, ValuesFor(s, k)))
  }

  /** The length of the run of equal keys at the front. */
  function RunLength(s: seq<KeyValue>): (n: nat)
    requires s != []
    ensures 1 <= n <= |s|
    ensures forall i | 0 <= i < n :: s[i].key == s[0].key
    ensures n < |s| ==> s[n].key != s[0].key
  {
    if |s| == 1 || s[1].key != s[0].key then 1 else 1 + RunLength(s[1..])
  }

  /** One line for each run of equal keys. */
  function Groups(app: App, s: seq<KeyValue>): seq<Line> {
    if s == [] then []
    else
      var n := RunLength(s);
      [Line(s[0].key, app.reducef(s[0].key, Values(s[..n])))] + Groups(app, s[n..])
  }

  lemma RunLengthIs(s: seq<KeyValue>, n: nat)
    requires s != [] && 1 <= n <= |s| && (forall i | 0 <= i < n :: s[i].key == s[0].key) &&
        (n < |s| ==> s[n].key != s[0].key)
    ensures RunLength(s) == n
  {
  }

  lemma {:induction false} ValuesSnoc(s: seq<KeyValue>, e: KeyValue)
    ensures Values(s + [e]) == Values(s) + [e.value]
  {
    if s == [] {
      assert s + [e] == [e];
    } else {
      ValuesSnoc(s[1..], e);
      assert (s + [e])[1..] == s[1..] + [e];
    }
  }

  lemma GroupsStep(app: App, s: seq<KeyValue>, n: nat)
    requires s != [] && RunLength(s) == n
    ensures Groups(app, s) == [Line(s[0].key, app.reducef(s[0].key, Values(s[..n])))] + Groups(app, s[n..])
  {
  }

  /** `lines` are the lines of the runs before position `start`, which begins a run. */
  ghost predicate Written(app: App, s: seq<KeyValue>, lines: seq<Line>, start: nat)
    requires start <= |s|
  {
    lines + Groups(app, s[start..]) == Groups(app, s)
  }

  lemma CloseRun(app: App, s: seq<KeyValue>, lines: seq<Line>, start: nat, i: nat)
    requires start < i <= |s| && (forall t | start <= t < i :: s[t].key == s[start].key) &&
        (i < |s| ==> s[i].key != s[start].key)
    requires Written(app, s, lines, start)
    ensures Written(app, s, lines + [Line(s[start].key, app.reducef(s[start].key, Values(s[start..i])))], i)
  {
    hide Groups, Values, RunLength;
    var rest := s[start..];
    RunLengthIs(rest, i - start);
    GroupsStep(app, rest, i - start);
    assert rest[..i - start] == s[start..i] && rest[i - start..] == s[i..];
  }

  lemma NothingWritten(app: App, s: seq<KeyValue>)
    ensures Written(app, s, [], 0)
  {
    assert s[0..] == s;
  }

  lemma AllWritten(app: App, s: seq<KeyValue>, lines: seq<Line>)
    requires Written(app, s, lines, |s|)
    ensures lines == Groups(app, s)
  {
    assert s[|s|..] == [];
  }

  lemma SliceSnoc<T>(s: seq<T>, start: nat, i: nat)
    requires start <= i < |s|
    ensures s[start..i + 1] == s[start..i] + [s[i]]
  {
  }

  lemma ValuesUpTo(s: seq<KeyValue>, start: nat, i: nat)
    requires start <= i < |s|
    ensures Values(s[start..i + 1]) == Values(s[start..i]) + [s[i].value] && Values(s[i..i]) == []
  {
    ValuesSnoc(s[start..i], s[i]);
    SliceSnoc(s, start, i);
  }

  /** The sequential program's scan: two indices delimit each run. */
  method SequentialReduce(app: App, intermediate: seq<KeyValue>) returns (lines: seq<Line>)
    ensures lines == Groups(app, intermediate)
  {
    hide Groups, Values, Written;
    lines := [];
    NothingWritten(app, intermediate);
    var i := 0;
    while i < |intermediate|
      invariant 0 <= i <= |intermediate| && Written(app, intermediate, lines, i)
      decreases |intermediate| - i
    {
      var j := i + 1;
      while j < |intermediate| && intermediate[j].key == intermediate[i].key
        invariant i < j <= |intermediate| && forall t | i <= t < j :: intermediate[t].key == intermediate[i].key
      {
        j := j + 1;
      }
      var values: seq<string> := [];
      ValuesUpTo(intermediate, i, i);
      for k := i to j
        invariant values == Values(intermediate[i..k])
      {
        ValuesUpTo(intermediate, i, k);
        values := values + [intermediate[k].value];
      }
      CloseRun(app, intermediate, lines, i, j);
      var output := app.reducef(intermediate[i].key, values);
      lines := lines + [Line(intermediate[i].key, output)];
      i := j;
    }
    AllWritten(app, intermediate, lines);
  }

  /** The worker's loop: one pass, with the current key and the values collected for it. */
  method WorkerReduce(app: App, contentData: seq<KeyValue>) returns (lines: seq<Line>)
    ensures lines == Groups(app, contentData)
  {
    hide Groups, Values, Written;
    lines := [];
    NothingWritten(app, contentData);
    if |contentData| > 0 {
      var currentKey := contentData[0].key;
      var values: seq<string> := [contentData[0].value];
      ghost var start := 0;
      ValuesUpTo(contentData, 0, 0);
      for i := 1 to |contentData|
        invariant 0 <= start < i && forall t | start <= t < i :: contentData[t].key == currentKey
        invariant values == Values(contentData[start..i]) && Written(app, contentData, lines, start)
      {
        ValuesUpTo(contentData, start, i);
        ValuesUpTo(contentData, i, i);
        if contentData[i].key == currentKey {
          values := values + [contentData[i].value];
        } else {
          CloseRun(app, contentData, lines, start, i);
          var reduceResult := app.reducef(currentKey, values);
          lines := lines + [Line(currentKey, reduceResult)];
          values := [];
          currentKey := contentData[i].key;
          values := values + [contentData[i].value];
          start := i;
        }
      }
      CloseRun(app, contentData, lines, start, |contentData|);
      var reduceResult := app.reducef(currentKey, values);
      lines := lines + [Line(currentKey, reduceResult)];
    }
    AllWritten(app, contentData, lines);
  }

  // ----- what the groups of a sorted sequence are

  lemma {:induction false} ValuesForSplit(a: seq<KeyValue>, b: seq<KeyValue>, key: string)
    ensures ValuesFor(a + b, key) == ValuesFor(a, key) + ValuesFor(b, key)
  {
    hide ValuesFor;
    if a == [] {
      assert a + b == b;
      NoValues(key);
    } else {
      ValuesForSplit(a[1..], b, key);
      assert a + b == [a[0]] + (a[1..] + b) && a == [a[0]] + a[1..];
      ValuesForCons(a[0], a[1..], key);
      ValuesForCons(a[0], a[1..] + b, key);
    }
  }

  lemma NoValues(key: string)
    ensures ValuesFor([], key) == []
  {
  }

  lemma ValuesForCons(kv: KeyValue, s: seq<KeyValue>, key: string)
    ensures ValuesFor([kv] + s, key) == (if kv.key == key then [kv.value] else []) + ValuesFor(s, key)
  {
    assert ([kv] + s)[1..] == s;
  }

  lemma {:induction false} ValuesForRun(s: seq<KeyValue>, key: string)
    requires forall i | 0 <= i < |s| :: s[i].key == key
    ensures ValuesFor(s, key) == Values(s)
  {
    if s != [] { ValuesForRun(s[1..], key); }
  }

  lemma {:induction false} NoValuesFor(s: seq<KeyValue>, key: string)
    requires key !in Keys(s)
    ensures ValuesFor(s, key) == []
  {
    if s != [] {
      assert s[0] in s;
      assert forall kv | kv in s[1..] :: kv in s;
      NoValuesFor(s[1..], key);
    }
  }

  /** In a sorted sequence the first run holds all pairs of its key. */
  lemma FirstRun(s: seq<KeyValue>)
    requires SortedByKey(s) && s != []
    ensures var n := RunLength(s);
      && SortedByKey(s[n..]) && s[0].key !in Keys(s[n..]) && Keys(s) == Keys(s[n..]) + {s[0].key}
      && ValuesFor(s, s[0].key) == Values(s[..n])
      && forall k | k != s[0].key :: ValuesFor(s, k) == ValuesFor(s[n..], k)
  {
    hide StringLess, Keys, ValuesFor, Values, RunLength;
    var n := RunLength(s);
    var front, rest := s[..n], s[n..];
    assert s == front + rest;
    LaterKeysDiffer(s, n);
    KeysOfRun(front, s[0].key);
    KeysSplit(front, rest);
    ValuesForRun(front, s[0].key);
    NoValuesFor(rest, s[0].key);
    forall k ensures ValuesFor(s, k) == ValuesFor(front, k) + ValuesFor(rest, k) { ValuesForSplit(front, rest, k); }
    forall k | k != s[0].key ensures ValuesFor(front, k) == [] { NoValuesFor(front, k); }
  }

  lemma KeysOfRun(s: seq<KeyValue>, key: string)
    requires s != [] && forall i | 0 <= i < |s| :: s[i].key == key
    ensures Keys(s) == {key}
  {
    assert s[0] in s;
  }

  lemma KeysSplit(a: seq<KeyValue>, b: seq<KeyValue>)
    ensures Keys(a + b) == Keys(a) + Keys(b)
  {
    assert forall kv :: kv in a + b <==> kv in a || kv in b;
  }

  lemma LaterKeysDiffer(s: seq<KeyValue>, n: nat)
    requires SortedByKey(s) && s != [] && n == RunLength(s)
    ensures s[0].key !in Keys(s[n..])
  {
    hide StringLess;
    forall i | n <= i < |s| ensures s[i].key != s[0].key {
      LessIsTotal(s[0].key, s[n].key);
      if n < i {
        assert !StringLess(s[i].key, s[n].key) && !StringLess(s[n].key, s[0].key);
      }
    }
  }

  /** The groups of a sorted sequence are the expected lines, each written once. */
  lemma {:induction false} GroupsAreExpected(app: App, s: seq<KeyValue>)
    requires SortedByKey(s)
    ensures multiset(Groups(app, s)) == multiset(ExpectedLines(app, s))
    decreases |s|
  {
    if s == [] {
      assert ExpectedLines(app, s) == {};
    } else {
      var n := RunLength(s);
      FirstRun(s);
      GroupsAreExpected(app, s[n..]);
      ExpectedStep(app, s);
    }
  }

  lemma ExpectedStep(app: App, s: seq<KeyValue>)
    requires SortedByKey(s) && s != []
    ensures var n := RunLength(s); var first := Line(s[0].key, app.reducef(s[0].key, Values(s[..n])));
      ExpectedLines(app, s) == ExpectedLines(app, s[n..]) + {first} && first !in ExpectedLines(app, s[n..])
  {
    hide Values, RunLength, SortedByKey;
    FirstRun(s);
  }

  // ----- the order of the pairs does not matter

  lemma {:induction false} ValuesForCount(s: seq<KeyValue>, key: string, v: string)
    ensures multiset(ValuesFor(s, key))[v] == multiset(s)[KeyValue(key, v)]
  {
    if s != [] {
      hide ValuesFor;
      ValuesForCount(s[1..], key, v);
      assert s == [s[0]] + s[1..];
      ValuesForCons(s[0], s[1..], key);
      var first := if s[0].key == key then [s[0].value] else [];
      assert multiset(first + ValuesFor(s[1..], key)) == multiset(first) + multiset(ValuesFor(s[1..], key));
    }
  }

  lemma SamePairsSameLines(app: App, s: seq<KeyValue>, t: seq<KeyValue>)
    requires OrderBlind(app) && multiset(s) == multiset(t)
    ensures ExpectedLines(app, s) == ExpectedLines(app, t)
  {
    assert Keys(s) == Keys(t) by {
      assert forall kv :: kv in s <==> kv in multiset(s);
      assert forall kv :: kv in t <==> kv in multiset(t);
    }
    forall k ensures app.reducef(k, ValuesFor(s, k)) == app.reducef(k, ValuesFor(t, k)) {
      forall v ensures multiset(ValuesFor(s, k))[v] == multiset(ValuesFor(t, k))[v] {
        ValuesForCount(s, k, v);
        ValuesForCount(t, k, v);
      }
      assert multiset(ValuesFor(s, k)) == multiset(ValuesFor(t, k));
    }
  }
}
