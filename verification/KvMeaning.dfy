/** What the key/value model accepts, said without its states: reads see the last put and what was appended since. */
module KvMeaning {
  import opened FiniteSets
  import opened Linearizability
  import opened KvLocality

  type KvOperation = Operation<KvValue>

  predicate Gets(o: KvOperation) { o.input.KvInput? && o.input.op == 0 }

  predicate Puts(o: KvOperation) { o.input.KvInput? && o.input.op == 1 }

  predicate Appends(o: KvOperation) { o.input.KvInput? && o.input.op != 0 && o.input.op != 1 }

  /** The values appended by `ops`, in order. */
  function Joined(ops: KvHistory): string {
    if ops == [] then "" else (if Appends(ops[0]) then ops[0].input.value else "") + Joined(ops[1..])
  }

  /** The last put of `ops` is the one before j; without any, j is 0. */
  ghost predicate LastPut(ops: KvHistory, j: nat) {
    j <= |ops| && (j > 0 ==> Puts(ops[j - 1])) && forall i | j <= i < |ops| :: !Puts(ops[i])
  }

  /** After `ops`, a read returns r: what was put last, or nothing, followed by what was appended since. */
  ghost predicate Returns(ops: KvHistory, r: string) {
    exists j: nat :: LastPut(ops, j) && r == (if j == 0 then "" else Written(ops[j - 1])) + Joined(ops[j..])
  }

  function Written(o: KvOperation): string {
    if o.input.KvInput? then o.input.value else ""
  }

  function Result(o: KvOperation): string {
    if o.output.KvOutput? then o.output.result else ""
  }

  ghost function Ops(h: KvHistory, p: seq<nat>): (ops: KvHistory)
    requires InRange(p, |h|)
    ensures |ops| == |p|
  {
    seq(|p|, i requires 0 <= i < |p| => h[p[i]])
  }

  // ----- one more operation

  lemma {:induction false} JoinedSnoc(ops: KvHistory, o: KvOperation)
    ensures Joined(ops + [o]) == Joined(ops) + if Appends(o) then Written(o) else ""
  {
    if ops == [] {
      assert ([o])[1..] == [];
    } else {
      JoinedSnoc(ops[1..], o);
      assert (ops + [o])[1..] == ops[1..] + [o];
    }
  }

  lemma OneMoreOnKey(ops: KvHistory, o: KvOperation, key: string)
    ensures SubHistory(ops + [o], key) ==
        SubHistory(ops, key) + if o.input.KvInput? && o.input.key == key then [o] else []
  {
    assert (ops + [o])[..|ops|] == ops;
  }

  lemma OneResult(ops: KvHistory, r: string, r': string)
    requires Returns(ops, r) && Returns(ops, r')
    ensures r == r'
  {
    hide Joined, Written, Puts;
    var j: nat :| LastPut(ops, j) && r == (if j == 0 then "" else Written(ops[j - 1])) + Joined(ops[j..]);
    var j': nat :| LastPut(ops, j') && r' == (if j' == 0 then "" else Written(ops[j' - 1])) + Joined(ops[j'..]);
    assert j == j';
  }

  lemma StepReturns(ops: KvHistory, o: KvOperation, r: string)
    requires Returns(ops, r) && o.input.KvInput? && o.output.KvOutput?
    ensures Returns(ops + [o], KvModel().step(r, o.input, o.output).1)
    ensures KvModel().step(r, o.input, o.output).0 <==> (Gets(o) ==> Result(o) == r)
  {
    hide Joined;
    var j: nat :| LastPut(ops, j) && r == (if j == 0 then "" else Written(ops[j - 1])) + Joined(ops[j..]);
    var more := ops + [o];
    if Puts(o) {
      assert LastPut(more, |more|) by { assert more[|more| - 1] == o; LastPutAtEnd(more); }
      assert more[|more|..] == [];
      assert Joined([]) == "" by { NothingJoined(); }
    } else {
      SamePut(ops, o, j);
      assert more[j..] == ops[j..] + [o];
      JoinedSnoc(ops[j..], o);
    }
  }

  lemma NothingJoined()
    ensures Joined([]) == ""
  {
  }

  lemma LastPutAtEnd(ops: KvHistory)
    requires ops != [] && Puts(ops[|ops| - 1])
    ensures LastPut(ops, |ops|)
  {
  }

  lemma SamePut(ops: KvHistory, o: KvOperation, j: nat)
    requires LastPut(ops, j) && !Puts(o)
    ensures LastPut(ops + [o], j) && (j > 0 ==> (ops + [o])[j - 1] == ops[j - 1])
  {
    hide Puts;
  }

  lemma NothingReturned()
    ensures Returns([], "")
  {
    assert LastPut([], 0);
  }

  // ----- one key

  lemma {:induction false} KeyReturns(h: KvHistory, p: seq<nat>)
    requires WellTyped(h) && InRange(p, |h|)
    ensures Returns(Ops(h, p), StateAfter(KvModel(), h, KvModel().init, p))
    decreases |p|
  {
    hide Returns, KvModel;
    if p == [] {
      NothingReturned();
      assert KvModel().init == "" by { Initially(); }
    } else {
      var q, x := p[..|p| - 1], p[|p| - 1];
      KeyReturns(h, q);
      LastStep(KvModel(), h, KvModel().init, q, x);
      assert p == q + [x] && Ops(h, p) == Ops(h, q) + [h[x]];
      StepReturns(Ops(h, q), h[x], StateAfter(KvModel(), h, KvModel().init, q));
    }
  }

  lemma Initially()
    ensures KvModel().init == "" && StoreModel().init == map[]
  {
  }

  lemma LastStep<S, V>(m: Model<S, V>, h: seq<Operation<V>>, st: S, q: seq<nat>, x: nat)
    requires InRange(q, |h|) && x < |h|
    ensures InRange(q + [x], |h|)
    ensures StateAfter(m, h, st, q + [x]) == StepOf(m, h, StateAfter(m, h, st, q), x).1
    ensures Accepts(m, h, st, q + [x]) <==> Accepts(m, h, st, q) && StepOf(m, h, StateAfter(m, h, st, q), x).0
  {
    AcceptsSplit(m, h, st, q, [x]);
    var mid := StateAfter(m, h, st, q);
    assert [x][1..] == [];
    assert StateAfter(m, h, mid, [x]) == StateAfter(m, h, StepOf(m, h, mid, x).1, []);
    assert Accepts(m, h, mid, [x]) <==> StepOf(m, h, mid, x).0 && Accepts(m, h, StepOf(m, h, mid, x).1, []);
  }

  /** Every get among `ops` returned what those before it say. */
  ghost predicate ReadsAreRight(ops: KvHistory) {
    forall i | 0 <= i < |ops| && Gets(ops[i]) :: Returns(ops[..i], Result(ops[i]))
  }

  lemma OneMoreRead(ops: KvHistory, o: KvOperation)
    ensures ReadsAreRight(ops + [o]) <==> ReadsAreRight(ops) && (Gets(o) ==> Returns(ops, Result(o)))
  {
    hide Returns, Gets, Result;
    var more := ops + [o];
    assert more[..|ops|] == ops && more[|ops|] == o;
    forall i | 0 <= i < |ops| ensures more[..i] == ops[..i] && more[i] == ops[i] {}
    if ReadsAreRight(more) {
      forall i | 0 <= i < |ops| && Gets(ops[i]) ensures Returns(ops[..i], Result(ops[i])) { assert Gets(more[i]); }
      if Gets(o) { assert Gets(more[|ops|]); }
    }
  }

  /** The model of one key accepts exactly the sequences of operations in which all reads are right. */
  lemma {:induction false} KeyAcceptsIff(h: KvHistory, p: seq<nat>)
    requires WellTyped(h) && InRange(p, |h|)
    ensures Accepts(KvModel(), h, KvModel().init, p) <==> ReadsAreRight(Ops(h, p))
    decreases |p|
  {
    hide Returns, KvModel, Accepts;
    if p == [] {
      EmptyAccepted(KvModel(), h);
    } else {
      var q, x := p[..|p| - 1], p[|p| - 1];
      KeyAcceptsIff(h, q);
      KeyReturns(h, q);
      LastStep(KvModel(), h, KvModel().init, q, x);
      assert p == q + [x] && Ops(h, p) == Ops(h, q) + [h[x]];
      var st := StateAfter(KvModel(), h, KvModel().init, q);
      StepReturns(Ops(h, q), h[x], st);
      OneMoreRead(Ops(h, q), h[x]);
      if Returns(Ops(h, q), Result(h[x])) { OneResult(Ops(h, q), st, Result(h[x])); }
    }
  }

  lemma EmptyAccepted<S, V>(m: Model<S, V>, h: seq<Operation<V>>)
    ensures Accepts(m, h, m.init, [])
  {
  }

  // ----- the store of all keys

  lemma {:induction false} StoreReturns(h: KvHistory, p: seq<nat>, key: string)
    requires WellTyped(h) && InRange(p, |h|)
    ensures Returns(SubHistory(Ops(h, p), key), ValueOf(StateAfter(StoreModel(), h, StoreModel().init, p), key))
    decreases |p|
  {
    hide Returns, KvModel, StoreModel, SubHistory;
    if p == [] {
      NothingReturned();
      Initially();
      assert SubHistory([], key) == [] by { NothingOnKey(key); }
    } else {
      var q, x := p[..|p| - 1], p[|p| - 1];
      StoreReturns(h, q, key);
      LastStep(StoreModel(), h, StoreModel().init, q, x);
      assert p == q + [x] && Ops(h, p) == Ops(h, q) + [h[x]];
      OneMoreOnKey(Ops(h, q), h[x], key);
      var s := StateAfter(StoreModel(), h, StoreModel().init, q);
      StoreStepAtKey(h, s, x);
      if h[x].input.key == key {
        StepReturns(SubHistory(Ops(h, q), key), h[x], ValueOf(s, key));
      } else {
        assert SubHistory(Ops(h, q), key) + [] == SubHistory(Ops(h, q), key);
      }
    }
  }

  lemma NothingOnKey(key: string)
    ensures SubHistory([], key) == []
  {
  }

  /** Every get among `ops` returned what those before it on the same key say. */
  ghost predicate AllReadsAreRight(ops: KvHistory) {
    forall i | 0 <= i < |ops| && Gets(ops[i]) :: Returns(SubHistory(ops[..i], ops[i].input.key), Result(ops[i]))
  }

  lemma OneMoreReadOfAll(ops: KvHistory, o: KvOperation)
    requires o.input.KvInput?
    ensures AllReadsAreRight(ops + [o]) <==>
        AllReadsAreRight(ops) && (Gets(o) ==> Returns(SubHistory(ops, o.input.key), Result(o)))
  {
    hide Returns, Result, SubHistory;
    var more := ops + [o];
    assert more[..|ops|] == ops && more[|ops|] == o;
    forall i | 0 <= i < |ops| ensures more[..i] == ops[..i] && more[i] == ops[i] {}
    if AllReadsAreRight(more) {
      forall i | 0 <= i < |ops| && Gets(ops[i])
        ensures Returns(SubHistory(ops[..i], ops[i].input.key), Result(ops[i])) {
        assert Gets(more[i]);
      }
      if Gets(o) { assert Gets(more[|ops|]); }
    }
  }

  /** The model of the whole store accepts exactly those in which the reads of every key are. */
  lemma {:induction false} StoreAcceptsIff(h: KvHistory, p: seq<nat>)
    requires WellTyped(h) && InRange(p, |h|)
    ensures Accepts(StoreModel(), h, StoreModel().init, p) <==> AllReadsAreRight(Ops(h, p))
    decreases |p|
  {
    hide Returns, KvModel, StoreModel, Accepts, SubHistory;
    if p == [] {
      EmptyAccepted(StoreModel(), h);
    } else {
      var q, x := p[..|p| - 1], p[|p| - 1];
      var key := h[x].input.key;
      StoreAcceptsIff(h, q);
      StoreReturns(h, q, key);
      LastStep(StoreModel(), h, StoreModel().init, q, x);
      assert p == q + [x] && Ops(h, p) == Ops(h, q) + [h[x]];
      var s := StateAfter(StoreModel(), h, StoreModel().init, q);
      StoreStepAtKey(h, s, x);
      var before := SubHistory(Ops(h, q), key);
      StepReturns(before, h[x], ValueOf(s, key));
      OneMoreReadOfAll(Ops(h, q), h[x]);
      if Returns(before, Result(h[x])) { OneResult(before, ValueOf(s, key), Result(h[x])); }
    }
  }

  // ----- linearizability

  /** Some order of all operations respects real time, and has all reads right. */
  ghost predicate Explained(h: KvHistory) {
    exists p :: Explains(h, p)
  }

  ghost predicate Explains(h: KvHistory, p: seq<nat>) {
    |p| == |h| && InRange(p, |h|) && Distinct(p) && RespectsRealTime(h, p) && AllReadsAreRight(Ops(h, p))
  }

  lemma LinearizableIffExplained(h: KvHistory)
    requires WellTyped(h)
    ensures Linearizable(StoreModel(), h) <==> Explained(h)
  {
    hide AllReadsAreRight, Accepts, StoreModel, RespectsRealTime;
    forall p ensures Linearizes(StoreModel(), h, p) <==> Explains(h, p) {
      if InRange(p, |h|) { StoreAcceptsIff(h, p); }
    }
  }
}
