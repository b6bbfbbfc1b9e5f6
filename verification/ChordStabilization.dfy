/** Stabilizing ends, and ends in the ideal ring. */
module ChordStabilization {
  import opened FiniteSets
  import opened Keys
  import opened ChordProtocol
  import opened ChordInvariant
  import opened ChordGaps

  // ----- rings that stabilizing leaves alone

  /** A round of n's stabilize loop would change nothing. */
  ghost predicate Settled(succ: map<int, int>, pred: map<int, int>, n: int)
    requires n in succ
  {
    var q := succ[n];
    && (q in pred ==> !Between(n, q, pred[q]))
    && Notify(pred, q, n) == pred
  }

  /** A member's successor remembers it; a member that is its own successor has no predecessor. */
  ghost predicate Mutual(succ: map<int, int>, pred: map<int, int>) {
    forall n | n in succ :: if succ[n] == n then n !in pred else succ[n] in pred && pred[succ[n]] == n
  }

  /** Every first successor is the next member clockwise, and records that. */
  ghost predicate Ideal(s: State)
    requires s.succ.Keys == s.members
  {
    && (forall n | n in s.members :: IsNext(s.members, n, s.succ[n]))
    && Mutual(s.succ, s.pred)
  }

  lemma SettledPred(c: int, s: State, n: int)
    requires Inv(c, s) && n in s.succ && Settled(s.succ, s.pred, n)
    ensures if s.succ[n] == n then n !in s.pred else s.succ[n] in s.pred && s.pred[s.succ[n]] == n
  {
    hide Inv, Arc, StabOk, GreetOk, JoinOk, EdgesOk, Between;
    InvParts(c, s, n);
    var q := s.succ[n];
    InvParts(c, s, q);
    assert OnCircle(n) && OnCircle(q);
    if q in s.pred {
      var p := s.pred[q];
      SelfBetween(q, p);
      if p != n && n != q { EitherIsCloser(n, p, q); }
    }
    if n != q {
      assert Notify(s.pred, q, n) == s.pred;
      assert s.pred[q := n][q] == n;
    }
  }

  /** Successors of which each remembers its predecessor miss no member. */
  lemma Onto(succ: map<int, int>, pred: map<int, int>, x: int) returns (y: int)
    requires Closed(succ) && x in succ && forall n | n in succ :: succ[n] in pred && pred[succ[n]] == n
    ensures y in succ && succ[y] == x
  {
    hide Injective;
    Remembered(succ, pred);
    y := InjectiveIsOnto(succ, x);
  }

  lemma Remembered(succ: map<int, int>, pred: map<int, int>)
    requires forall n | n in succ :: succ[n] in pred && pred[succ[n]] == n
    ensures Injective(succ.Keys, succ)
  {
  }

  // ----- the ideal ring

  /** No member is inside an edge: otherwise the edge into it would hold, or lie around, one of smaller rank. */
  lemma {:induction false} NoneInside(c: int, succ: map<int, int>, pred: map<int, int>, n: int, x: int)
    requires EdgesOk(c, succ) && n in succ && x in succ
    requires forall m | m in succ :: succ[m] in pred && pred[succ[m]] == m
    ensures !Between(n, succ[n], x)
    decreases Rank(c, x)
  {
    hide Between, Distance, EdgeOk;
    if Between(n, succ[n], x) {
      var y := Onto(succ, pred, x);
      InsideEdge(c, n, succ[n], x);
      EdgeRank(c, y, x);
      RankZero(c, x);
      RankZero(c, c);
      if Rank(c, y) > Rank(c, n) {
        InsideEdge(c, n, succ[n], y);
        NoneInside(c, succ, pred, n, y);
      } else if Rank(c, y) < Rank(c, n) {
        InsideEdge(c, y, x, n);
        NoneInside(c, succ, pred, y, n);
      } else {
        SameRank(c, y, n);
        SelfBetween(n, x);
      }
    }
  }

  lemma RankZero(c: int, x: int)
    requires OnCircle(c) && OnCircle(x)
    ensures Rank(c, x) == 0 <==> x == c
  {
  }

  lemma SameRank(c: int, x: int, y: int)
    requires OnCircle(c) && OnCircle(x) && OnCircle(y) && Rank(c, x) == Rank(c, y)
    ensures x == y
  {
    hide Distance;
    DistanceIs(c, x);
    DistanceIs(c, y);
  }

  /** If the creator is its own successor and nobody is its predecessor, it is alone. */
  lemma {:induction false} Alone(c: int, succ: map<int, int>, pred: map<int, int>, n: int)
    requires EdgesOk(c, succ) && n in succ && c !in pred
    requires forall m | m in succ && succ[m] != m :: succ[m] in pred
    ensures n == c
    decreases Distance(n, c)
  {
    hide Between, Distance, EdgeOk;
    if n != c {
      TowardsCreator(c, n, succ[n]);
      Alone(c, succ, pred, succ[n]);
    }
  }

  lemma NobodyInside(c: int, succ: map<int, int>, pred: map<int, int>, n: int, x: int)
    requires EdgesOk(c, succ) && Mutual(succ, pred) && n in succ && x in succ
    ensures !Between(n, succ[n], x)
  {
    hide Between, Distance, EdgeOk;
    if succ[c] == c {
      Alone(c, succ, pred, n);
      Alone(c, succ, pred, x);
      SelfBetween(n, x);
    } else {
      forall e | e in succ && succ[e] == e ensures false { TowardsItself(c, succ, e); }
      NoneInside(c, succ, pred, n, x);
    }
  }

  /** Only the creator may be its own successor. */
  lemma TowardsItself(c: int, succ: map<int, int>, n: int)
    requires EdgesOk(c, succ) && n in succ && succ[n] == n
    ensures n == c
  {
    hide Between, Distance;
    if n != c { TowardsCreator(c, n, n); }
  }

  lemma IdealIsSettled(c: int, s: State, n: int)
    requires Inv(c, s) && s.succ.Keys == s.members && Ideal(s) && n in s.members
    ensures Settled(s.succ, s.pred, n)
  {
    hide Inv, EdgeOk, Reaches, Between;
    InvParts(c, s, n);
    SelfBetween(n, s.succ[n]);
    if s.succ[n] != n { assert s.pred[s.succ[n] := n] == s.pred; }
  }

  lemma SettledIsIdeal(c: int, s: State)
    requires Inv(c, s) && s.succ.Keys == s.members && forall n | n in s.members :: Settled(s.succ, s.pred, n)
    ensures Ideal(s)
  {
    hide Inv, Between, EdgesOk, Settled;
    InvParts(c, s, c);
    forall n | n in s.succ
      ensures if s.succ[n] == n then n !in s.pred else s.succ[n] in s.pred && s.pred[s.succ[n]] == n {
      SettledPred(c, s, n);
    }
    forall n, x | n in s.members && x in s.members ensures !Between(n, s.succ[n], x) {
      NobodyInside(c, s.succ, s.pred, n, x);
    }
  }

  /** A state of the protocol in which no round of stabilize changes anything is the ideal ring, and only that. */
  lemma SettledIffIdeal(c: int, s: State)
    requires Inv(c, s)
    ensures s.succ.Keys == s.members
    ensures (forall n | n in s.members :: Settled(s.succ, s.pred, n)) <==> Ideal(s)
  {
    hide Inv, Settled, Ideal;
    InvParts(c, s, c);
    if forall n | n in s.members :: Settled(s.succ, s.pred, n) { SettledIsIdeal(c, s); }
    if Ideal(s) {
      forall n | n in s.members ensures Settled(s.succ, s.pred, n) { IdealIsSettled(c, s, n); }
    }
  }

  // ----- runs without new members

  /** Steps of the protocol, with the same members throughout, from a state that a run can reach. */
  ghost predicate Steady(c: int, run: seq<State>) {
    && run != [] && Inv(c, run[0])
    && forall i | 0 < i < |run| :: Next(run[i - 1], run[i]) && run[i].members == run[0].members
  }

  /** How many of the steps moved a successor or a predecessor. */
  ghost function Changes(run: seq<State>): nat {
    if |run| < 2 then 0
    else
      var s, t := run[|run| - 2], run[|run| - 1];
      Changes(run[..|run| - 1]) + if t.succ == s.succ && t.pred == s.pred then 0 else 1
  }

  /** At most as many steps as there are members inside the gaps, and at most twice the square of their number. */
  lemma {:induction false} FewChanges(c: int, run: seq<State>)
    requires Steady(c, run)
    ensures Inv(c, run[|run| - 1])
    ensures Changes(run) + Gaps(run[|run| - 1]) <= Gaps(run[0])
    ensures Changes(run) + Insiders(run[|run| - 1]) <= Insiders(run[0]) <= 2 * |run[0].members| * |run[0].members|
  {
    hide Inv, Next, Gaps, Insiders;
    InsidersBounded(c, run[0]);
    if |run| > 1 {
      var front := run[..|run| - 1];
      assert Steady(c, front);
      FewChanges(c, front);
      var s, t := run[|run| - 2], run[|run| - 1];
      assert Next(run[|run| - 1 - 1], run[|run| - 1]) && t.members == s.members;
      ChangeShrinks(c, s, t);
      NextKeepsInv(c, s, t);
      if t.succ == s.succ && t.pred == s.pred { SameMeasures(s, t); }
    }
  }

  // ----- where a run that changes nothing is

  /** Where a round of n's loop is that began with these successors and predecessors. */
  ghost predicate InRound(s: State, n: int)
    requires n in s.succ && n in s.stab
  {
    var q := s.succ[n];
    match s.stab[n]
    case Idle => true
    case Asked(r) => r == q
    case Got(r, p) => r == q && q in s.pred && p == s.pred[q]
    case Telling(r) => r == q && (q in s.pred ==> !Between(n, q, s.pred[q]))
  }

  /** Between i and j, node n began and finished a round. */
  ghost predicate FullRound(run: seq<State>, n: int, i: nat, j: nat) {
    && i < j < |run| - 1 && n in run[i].stab && n in run[j].stab && n in run[j + 1].stab
    && run[i].stab[n] == Idle && run[j].stab[n].Telling? && run[j + 1].stab[n] == Idle
  }

  ghost predicate Frozen(s: State, t: State) {
    t.members == s.members && t.succ == s.succ && t.pred == s.pred
  }

  /** In a step that changes no successor and no predecessor, n's round goes on as it was. */
  lemma RoundGoesOn(c: int, s: State, n: int, t: State)
    requires Inv(c, s) && Inv(c, t) && Next(s, t) && Frozen(s, t) && n in s.members
    ensures n in s.succ && n in s.stab && n in t.succ && n in t.stab
    ensures InRound(s, n) ==> InRound(t, n)
    ensures InRound(s, n) && s.stab[n].Telling? && t.stab[n] == Idle ==> Settled(s.succ, s.pred, n)
  {
    hide Inv, JoinStep, GreetStep, StabilizeStep, Between, Notify, StabOk, Reaches, EdgesOk, Closed, PredOk, GreetOk,
        JoinOk;
    InvParts(c, s, n);
    InvParts(c, t, n);
    if InRound(s, n) && t.stab[n] != s.stab[n] {
      var m :| JoinStep(s, m, t) || GreetStep(s, m, t) || StabilizeStep(s, m, t);
      StabChanges(c, s, m, t, n);
      OwnStep(c, s, n, t);
    }
  }

  /** Only a node's own loop moves it on. */
  lemma StabChanges(c: int, s: State, m: int, t: State, n: int)
    requires Inv(c, s) && n in s.members && n in s.stab && n in t.stab && t.members == s.members &&
        t.stab[n] != s.stab[n]
    requires JoinStep(s, m, t) || GreetStep(s, m, t) || StabilizeStep(s, m, t)
    ensures m == n && StabilizeStep(s, n, t)
  {
    hide Inv, Between, Notify;
    if JoinStep(s, m, t) && !GreetStep(s, m, t) && !StabilizeStep(s, m, t) { JoinKeepsStabs(c, s, m, t); }
  }

  lemma JoinKeepsStabs(c: int, s: State, n: int, t: State)
    requires Inv(c, s) && JoinStep(s, n, t) && t.members == s.members
    ensures t.stab == s.stab
  {
    hide Inv, Between, Enter;
    if Enter(s, n, t) { EnterAdds(c, s, n, t); }
  }

  lemma OwnStep(c: int, s: State, n: int, t: State)
    requires Inv(c, s) && StabilizeStep(s, n, t) && Frozen(s, t) && n in s.members && n in s.stab && n in s.succ &&
        n in t.stab
    requires InRound(s, n)
    ensures InRound(t, n)
    ensures s.stab[n].Telling? ==> Settled(s.succ, s.pred, n)
  {
    hide Inv, Notify, Between;
    if s.stab[n].Got? { AdoptMoves(c, s, n, s.succ[n], s.stab[n].p); }
  }

  lemma AdoptMoves(c: int, s: State, n: int, q: int, p: int)
    requires Inv(c, s) && n in s.succ && n in s.stab && q == s.succ[n] && s.stab[n] == Got(q, p)
    ensures s.succ[n := p] != s.succ
  {
    hide Reaches, Inv, PredOk, GreetOk, JoinOk, EdgesOk;
    InvParts(c, s, n);
    assert s.succ[n := p][n] == p;
  }

  /** From state i on: either nothing has changed, or the gaps have become smaller. */
  lemma {:induction false} Later(c: int, run: seq<State>, i: nat, k: nat)
    requires Steady(c, run) && i <= k < |run|
    ensures Inv(c, run[i]) && Inv(c, run[k]) && run[k].members == run[i].members
    ensures Frozen(run[i], run[k]) || Insiders(run[k]) < Insiders(run[i])
    decreases k
  {
    hide Inv, Next, Insiders;
    if k > 0 {
      Later(c, run, if i < k then i else i - 1, k - 1);
      assert Next(run[k - 1], run[k]);
      ChangeShrinks(c, run[k - 1], run[k]);
      NextKeepsInv(c, run[k - 1], run[k]);
      if Frozen(run[i], run[k - 1]) { SameMeasures(run[i], run[k - 1]); }
      if Frozen(run[k - 1], run[k]) { SameMeasures(run[k - 1], run[k]); }
    }
  }

  lemma {:induction false} StaysInRound(c: int, run: seq<State>, n: int, i: nat, j: nat)
    requires Steady(c, run) && i <= j < |run| && n in run[i].members
    requires forall k | i <= k <= j :: Frozen(run[i], run[k])
    ensures n in run[i].succ && n in run[i].stab && n in run[j].succ && n in run[j].stab
    ensures InRound(run[i], n) ==> InRound(run[j], n)
    decreases j
  {
    hide Inv, Next, Insiders, InRound, EdgesOk, Closed, StabOk, PredOk, GreetOk, JoinOk;
    Later(c, run, i, j);
    InvParts(c, run[i], n);
    InvParts(c, run[j], n);
    if i < j {
      StaysInRound(c, run, n, i, j - 1);
      Later(c, run, i, j - 1);
      assert Next(run[j - 1], run[j]);
      assert Frozen(run[i], run[j - 1]) && Frozen(run[i], run[j]);
      RoundGoesOn(c, run[j - 1], n, run[j]);
    }
  }

  ghost predicate MakesRound(run: seq<State>, n: int, i: nat, j: nat) {
    exists a: nat, b: nat :: i <= a && b < j && FullRound(run, n, a, b)
  }

  /** Between states i and j, every node began and finished a round. */
  ghost predicate Epoch(run: seq<State>, i: nat, j: nat) {
    i < j < |run| && forall n | n in run[i].members :: MakesRound(run, n, i, j)
  }

  lemma RoundSettles(c: int, run: seq<State>, n: int, i: nat, a: nat, b: nat)
    requires Steady(c, run) && i <= a && FullRound(run, n, a, b) && n in run[i].members && n in run[i].succ
    requires forall k | i <= k <= b + 1 :: Frozen(run[i], run[k])
    ensures Settled(run[i].succ, run[i].pred, n)
  {
    hide Inv, Next, Settled;
    assert Frozen(run[i], run[a]) && Frozen(run[i], run[b]) && Frozen(run[i], run[b + 1]);
    StaysInRound(c, run, n, a, b);
    Later(c, run, b, b + 1);
    assert Next(run[b + 1 - 1], run[b + 1]);
    RoundGoesOn(c, run[b], n, run[b + 1]);
  }

  lemma EpochSettles(c: int, run: seq<State>, n: int, i: nat, j: nat)
    requires Steady(c, run) && i < j < |run| && n in run[i].members && n in run[i].succ && MakesRound(run, n, i, j)
    requires forall k | i <= k <= j :: Frozen(run[i], run[k])
    ensures Settled(run[i].succ, run[i].pred, n)
  {
    hide Steady, Settled, FullRound;
    var a: nat, b: nat :| i <= a && b < j && FullRound(run, n, a, b);
    RoundSettles(c, run, n, i, a, b);
  }

  /** If every node makes a round and nothing changes, the ring is ideal. */
  lemma FrozenIsIdeal(c: int, run: seq<State>, i: nat, j: nat)
    requires Steady(c, run) && Epoch(run, i, j) && forall k | i <= k <= j :: Frozen(run[i], run[k])
    ensures Inv(c, run[i]) && run[i].succ.Keys == run[i].members && Ideal(run[i])
  {
    hide Inv, Steady, Settled, Ideal, MakesRound, Frozen, EdgesOk, Closed;
    Later(c, run, i, i);
    InvParts(c, run[i], c);
    forall n | n in run[i].members ensures n in run[i].succ && Settled(run[i].succ, run[i].pred, n) {
      EpochSettles(c, run, n, i, j);
    }
    SettledIffIdeal(c, run[i]);
  }

  lemma EpochProgress(c: int, run: seq<State>, i: nat, j: nat)
    requires Steady(c, run) && Epoch(run, i, j)
    ensures Inv(c, run[i]) && run[i].succ.Keys == run[i].members
    ensures Ideal(run[i]) || Insiders(run[j]) < Insiders(run[i])
  {
    hide Inv, Next, Insiders, Ideal;
    Later(c, run, i, i);
    InvParts(c, run[i], c);
    if k :| i <= k <= j && !Frozen(run[i], run[k]) {
      Later(c, run, i, k);
      Later(c, run, k, j);
      if Frozen(run[k], run[j]) { SameMeasures(run[k], run[j]); }
    } else {
      FrozenIsIdeal(c, run, i, j);
    }
  }

  /** No step but a new member's changes an ideal ring, whatever nodes have read before. */
  lemma IdealStays(c: int, s: State, t: State)
    requires Inv(c, s) && s.succ.Keys == s.members && Ideal(s) && Next(s, t) && t.members == s.members
    ensures t.succ == s.succ && t.pred == s.pred
  {
    hide Inv, JoinStep, GreetStep, StabilizeStep, Ideal;
    var n :| JoinStep(s, n, t) || GreetStep(s, n, t) || StabilizeStep(s, n, t);
    if JoinStep(s, n, t) { JoinMovesNothing(c, s, n, t); }
    else if GreetStep(s, n, t) { IdealAfterGreet(c, s, n, t); }
    else { IdealAfterStabilize(c, s, n, t); }
  }

  lemma IdealNotify(c: int, s: State, q: int, n: int)
    requires Inv(c, s) && s.succ.Keys == s.members && Ideal(s) && (q == n || Reaches(c, s.succ, n, q))
    ensures Notify(s.pred, q, n) == s.pred
  {
    hide Inv, Between, Arc, EdgeOk, Mutual;
    if q != n {
      InvParts(c, s, q);
      var m := IdealPred(c, s, q, n);
      assert !Between(m, s.succ[m], n);
      assert s.pred[q := m] == s.pred;
    }
  }

  lemma NoLoops(c: int, s: State, q: int, n: int, e: int)
    requires s.succ.Keys == s.members && Ideal(s) && q in s.succ && n in s.succ && q != n && Closed(s.succ) &&
        e in s.succ
    ensures s.succ[e] != e
  {
    hide Between, Mutual;
    var other := if e == q then n else q;
    SelfBetween(e, other);
  }

  /** On an ideal ring with more than one member, each is the successor of its predecessor. */
  lemma IdealPred(c: int, s: State, q: int, n: int) returns (m: int)
    requires Inv(c, s) && s.succ.Keys == s.members && Ideal(s) && q in s.succ && n in s.succ && q != n
    ensures m in s.succ && s.succ[m] == q && q in s.pred && s.pred[q] == m
  {
    hide Inv, Between, EdgesOk, Reaches, Closed, IsNext;
    InvParts(c, s, q);
    forall e | e in s.succ ensures s.succ[e] in s.pred && s.pred[s.succ[e]] == e { NoLoops(c, s, q, n, e); }
    m := Onto(s.succ, s.pred, q);
  }

  lemma IdealAfterGreet(c: int, s: State, n: int, t: State)
    requires Inv(c, s) && s.succ.Keys == s.members && Ideal(s) && GreetStep(s, n, t)
    ensures t.succ == s.succ && t.pred == s.pred
  {
    hide Inv, Reaches, PredOk, StabOk, JoinOk, EdgesOk, Notify, Ideal;
    InvParts(c, s, n);
    match s.greets[n]
    case Ready =>
    case Greet(q) => IdealNotify(c, s, q, n);
  }

  lemma IdealAfterStabilize(c: int, s: State, n: int, t: State)
    requires Inv(c, s) && s.succ.Keys == s.members && Ideal(s) && StabilizeStep(s, n, t)
    ensures t.succ == s.succ && t.pred == s.pred
  {
    hide Inv, Arc, EdgeOk, PredOk, GreetOk, JoinOk, EdgesOk, Notify, Between, Mutual;
    InvParts(c, s, n);
    match s.stab[n]
    case Idle =>
    case Asked(q) =>
    case Got(q, p) => assert p in s.members;
    case Telling(q) => IdealNotify(c, s, q, n);
  }

  lemma {:induction false} IdealLater(c: int, run: seq<State>, i: nat, k: nat)
    requires Steady(c, run) && i <= k < |run| && run[i].succ.Keys == run[i].members && Ideal(run[i])
    ensures Frozen(run[i], run[k]) && run[k].succ.Keys == run[k].members && Ideal(run[k])
    decreases k
  {
    hide Inv, Next, Insiders;
    if i < k {
      IdealLater(c, run, i, k - 1);
      Later(c, run, i, k - 1);
      assert Next(run[k - 1], run[k]);
      IdealStays(c, run[k - 1], run[k]);
    }
  }

  lemma {:induction false} ConvergesBy(c: int, run: seq<State>, bounds: seq<nat>)
    requires Steady(c, run) && bounds != [] && bounds[0] < |run|
    requires forall i | 0 < i < |bounds| :: Epoch(run, bounds[i - 1], bounds[i])
    requires |bounds| > Insiders(run[bounds[0]]) + 1
    ensures var last := run[|run| - 1]; last.succ.Keys == last.members && Ideal(last)
    decreases |bounds|
  {
    hide Inv, Next, Insiders, Ideal, Epoch;
    var i, j := bounds[0], bounds[1];
    assert Epoch(run, bounds[1 - 1], bounds[1]);
    EpochProgress(c, run, i, j);
    InsideRun(run, i, j);
    if Ideal(run[i]) {
      IdealLater(c, run, i, |run| - 1);
    } else {
      var rest := bounds[1..];
      forall k | 0 < k < |rest| ensures Epoch(run, rest[k - 1], rest[k]) {
        assert Epoch(run, bounds[k + 1 - 1], bounds[k + 1]);
      }
      ConvergesBy(c, run, rest);
    }
  }

  /**
   * Without new members, after more epochs than twice the square of the number of members, in each of which every
   * node makes at least one round, the ring is ideal, however the steps interleave.
   */
  lemma Converges(c: int, run: seq<State>, bounds: seq<nat>)
    requires Steady(c, run) && bounds != [] && bounds[0] < |run|
    requires forall i | 0 < i < |bounds| :: Epoch(run, bounds[i - 1], bounds[i])
    requires |bounds| > 2 * |run[0].members| * |run[0].members| + 1
    ensures var last := run[|run| - 1]; last.succ.Keys == last.members && Ideal(last)
  {
    hide Inv, Next, Insiders, Ideal, Epoch;
    Later(c, run, 0, bounds[0]);
    InsidersBounded(c, run[bounds[0]]);
    ConvergesBy(c, run, bounds);
  }

  lemma InsideRun(run: seq<State>, i: nat, j: nat)
    requires Epoch(run, i, j)
    ensures i < j < |run|
  {
  }
}
