/**
 * A node answers requests as soon as it has started, before it has found its place in the ring. What holds of the
 * ring when new nodes ask only members, and what can happen when they ask others.
 */
module JoinContacts {
  import opened Keys
  import opened ChordProtocol
  import opened ChordInvariant

  /** The ring, and the nodes that have started. */
  datatype Wide = Wide(ring: State, up: set<int>)

  ghost predicate Starts(w: Wide, n: int, v: Wide) {
    OnCircle(n) && n !in w.ring.members && n !in w.up && v == w.(up := w.up + {n})
  }

  /** A node that has started asks another that has. */
  ghost predicate Asks(w: Wide, n: int, m: int, v: Wide) {
    && n in w.up && OnCircle(n) && n !in w.ring.members && n !in w.ring.joins && m != n &&
        (m in w.ring.members || m in w.up)
    && v == w.(ring := w.ring.(joins := w.ring.joins[n := Finding(m)]))
  }

  /** A node that nobody has spoken to is its own successor, so it names itself for any identifier. */
  ghost predicate AnswersAlone(w: Wide, n: int, v: Wide) {
    && n in w.ring.joins && w.ring.joins[n].Finding?
    && var m := w.ring.joins[n].at;
    && m in w.up && m !in w.ring.members && m !in w.ring.pred
    && v == w.(ring := w.ring.(joins := w.ring.joins[n := Found(m)]))
  }

  /** Whatever else the protocol does. */
  ghost predicate Goes(w: Wide, n: int, v: Wide) {
    && (AnswerJoin(w.ring, n, v.ring) || Enter(w.ring, n, v.ring) || GreetStep(w.ring, n, v.ring) ||
        StabilizeStep(w.ring, n, v.ring))
    && v.up == w.up
  }

  ghost predicate Next(w: Wide, v: Wide) {
    || (exists n :: Starts(w, n, v) || AnswersAlone(w, n, v) || Goes(w, n, v))
    || (exists n, m :: Asks(w, n, m, v))
  }

  ghost predicate Run(c: int, run: seq<Wide>) {
    && run != [] && run[0] == Wide(Create(c), {})
    && forall i | 0 < i < |run| :: Next(run[i - 1], run[i])
  }

  // ----- exactly when what new nodes find is right

  /** Some request is answered by a node that has not entered. */
  ghost predicate AnsweredTooEarly(w: Wide, v: Wide) {
    exists n :: AnswersAlone(w, n, v)
  }

  lemma TooEarlyIsWrong(c: int, w: Wide, n: int, v: Wide)
    requires Inv(c, w.ring) && AnswersAlone(w, n, v)
    ensures !Inv(c, v.ring)
  {
    hide EdgesOk, PredsOk, StabsOk, GreetsOk, EdgeOk;
    assert v.ring.joins[n] == Found(w.ring.joins[n].at);
  }

  lemma OtherStepsAreRight(c: int, w: Wide, v: Wide)
    requires Inv(c, w.ring) && Next(w, v) && !AnsweredTooEarly(w, v)
    ensures Inv(c, v.ring)
  {
    hide Inv, AnswerJoin, Enter, GreetStep, StabilizeStep, AnswersAlone;
    if n, m :| Asks(w, n, m, v) {
      InvParts(c, w.ring, n);
      JoinChangeKeeps(c, w.ring, n, Finding(m));
    } else {
      var n :| Starts(w, n, v) || AnswersAlone(w, n, v) || Goes(w, n, v);
      if Goes(w, n, v) {
        if AnswerJoin(w.ring, n, v.ring) || Enter(w.ring, n, v.ring) { JoinKeepsInv(c, w.ring, n, v.ring); }
        else if GreetStep(w.ring, n, v.ring) { GreetKeepsInv(c, w.ring, n, v.ring); }
        else { StabilizeKeepsInv(c, w.ring, n, v.ring); }
      }
    }
  }

  /** A step keeps the ring, and what new nodes have found of it, right exactly if nobody answers too early in it. */
  lemma StepIsRightIff(c: int, w: Wide, v: Wide)
    requires Inv(c, w.ring) && Next(w, v)
    ensures Inv(c, v.ring) <==> !AnsweredTooEarly(w, v)
  {
    hide Inv, Next, AnswersAlone;
    if n :| AnswersAlone(w, n, v) { TooEarlyIsWrong(c, w, n, v); } else { OtherStepsAreRight(c, w, v); }
  }

  lemma {:induction false} RightUpTo(c: int, run: seq<Wide>, k: nat)
    requires OnCircle(c) && Run(c, run) && k < |run|
    requires forall i | 0 < i <= k :: !AnsweredTooEarly(run[i - 1], run[i])
    ensures Inv(c, run[k].ring)
  {
    hide Next, AnsweredTooEarly, Inv;
    if k == 0 {
      CreateHasInv(c);
    } else {
      RightUpTo(c, run, k - 1);
      assert Next(run[k - 1], run[k]);
      StepIsRightIff(c, run[k - 1], run[k]);
    }
  }

  /** So a run is right throughout exactly if no request in it is answered by a node that has not entered. */
  lemma RunIsRightIff(c: int, run: seq<Wide>)
    requires OnCircle(c) && Run(c, run)
    ensures (forall i | 0 <= i < |run| :: Inv(c, run[i].ring)) <==>
            forall i | 0 < i < |run| :: !AnsweredTooEarly(run[i - 1], run[i])
  {
    hide Next, AnsweredTooEarly, Inv;
    if forall i | 0 <= i < |run| :: Inv(c, run[i].ring) {
      forall i | 0 < i < |run| ensures !AnsweredTooEarly(run[i - 1], run[i]) {
        assert Inv(c, run[i - 1].ring) && Inv(c, run[i].ring) && Next(run[i - 1], run[i]);
        StepIsRightIff(c, run[i - 1], run[i]);
      }
    }
    if forall i | 0 < i < |run| :: !AnsweredTooEarly(run[i - 1], run[i]) {
      forall k | 0 <= k < |run| ensures Inv(c, run[k].ring) { RightUpTo(c, run, k); }
    }
  }

  // ----- exactly when the ring itself is right

  /** The ring is right, whatever new nodes have found. */
  ghost predicate Sound(c: int, s: State) {
    Inv(c, s.(joins := map[])) && forall n | n in s.joins :: OnCircle(n) && n !in s.succ
  }

  /** What the new node has found is a member now, and its edge to that one does not jump over the creator. */
  ghost predicate MayEnter(c: int, s: State, n: int) {
    n in s.joins && s.joins[n].Found? && s.joins[n].s in s.succ && EdgeOk(c, n, s.joins[n].s)
  }

  ghost predicate EntersWrongly(c: int, w: Wide, v: Wide) {
    exists n :: Enter(w.ring, n, v.ring) && !MayEnter(c, w.ring, n)
  }

  lemma EntryIsRight(c: int, s: State, n: int, z: Stabilizer)
    requires Sound(c, s) && MayEnter(c, s, n) && (z == Idle || z == Asked(n) || z == Telling(n))
    ensures Sound(c, Entered(s, n, z))
  {
    hide Inv, EdgeOk;
    var alone := s.(joins := map[]);
    var one := s.(joins := map[n := s.joins[n]]);
    JoinChangeKeeps(c, alone, n, s.joins[n]);
    assert alone.(joins := alone.joins[n := s.joins[n]]) == one;
    EnterKeepsInv(c, one, n, z);
    assert one.joins - {n} == map[];
    assert Entered(s, n, z).(joins := map[]) == Entered(one, n, z);
  }

  lemma EntryIsWrong(c: int, s: State, n: int, t: State)
    requires Sound(c, s) && Enter(s, n, t) && !MayEnter(c, s, n)
    ensures !Sound(c, t)
  {
    hide PredsOk, StabsOk, GreetsOk, JoinsOk, Between;
    if Sound(c, t) {
      var q := s.joins[n].s;
      assert t.succ[n] == q && EdgeOk(c, n, q) && q in t.succ;
      assert q == n;
      SelfBetween(n, c);
    }
  }

  lemma GreetingIsRight(c: int, s: State, n: int, t: State)
    requires Sound(c, s) && GreetStep(s, n, t)
    ensures Sound(c, t)
  {
    hide Inv, Notify;
    GreetKeepsInv(c, s.(joins := map[]), n, t.(joins := map[]));
  }

  /** A stabilize step has nothing to do with nodes that are joining. */
  lemma WithoutJoins(s: State, n: int, t: State)
    requires StabilizeStep(s, n, t)
    ensures StabilizeStep(s.(joins := map[]), n, t.(joins := map[])) && t.joins == s.joins && t.succ.Keys == s.succ.Keys
  {
    hide Notify, Adopts;
    if s.stab[n].Got? { assert s.succ[n := s.stab[n].p].Keys == s.succ.Keys; }
  }

  lemma StabilizingIsRight(c: int, s: State, n: int, t: State)
    requires Sound(c, s) && StabilizeStep(s, n, t)
    ensures Sound(c, t)
  {
    hide Inv, StabilizeStep;
    WithoutJoins(s, n, t);
    StabilizeKeepsInv(c, s.(joins := map[]), n, t.(joins := map[]));
  }

  lemma OtherStepsAreSound(c: int, w: Wide, v: Wide)
    requires Sound(c, w.ring) && Next(w, v) && !EntersWrongly(c, w, v)
    ensures Sound(c, v.ring)
  {
    hide Inv, GreetStep, StabilizeStep, MayEnter, Between, Entered;
    InvParts(c, w.ring.(joins := map[]), c);
    if n, m :| Asks(w, n, m, v) {
    } else {
      var n :| Starts(w, n, v) || AnswersAlone(w, n, v) || Goes(w, n, v);
      if Goes(w, n, v) {
        if GreetStep(w.ring, n, v.ring) {
          GreetingIsRight(c, w.ring, n, v.ring);
        } else if StabilizeStep(w.ring, n, v.ring) {
          StabilizingIsRight(c, w.ring, n, v.ring);
        } else if Enter(w.ring, n, v.ring) {
          var z :| (z == Idle || z == Asked(n) || z == Telling(n)) && v.ring == Entered(w.ring, n, z);
          EntryIsRight(c, w.ring, n, z);
        }
      }
    }
  }

  /**
   * A step keeps the ring right exactly if no node enters in it whose found node is not a member, or lies beyond the
   * creator.
   */
  lemma StepIsSoundIff(c: int, w: Wide, v: Wide)
    requires Sound(c, w.ring) && Next(w, v)
    ensures Sound(c, v.ring) <==> !EntersWrongly(c, w, v)
  {
    hide Sound, Next, Enter, MayEnter;
    if n :| Enter(w.ring, n, v.ring) && !MayEnter(c, w.ring, n) {
      EntryIsWrong(c, w.ring, n, v.ring);
    } else {
      OtherStepsAreSound(c, w, v);
    }
  }

  lemma {:induction false} SoundUpTo(c: int, run: seq<Wide>, k: nat)
    requires OnCircle(c) && Run(c, run) && k < |run|
    requires forall i | 0 < i <= k :: !EntersWrongly(c, run[i - 1], run[i])
    ensures Sound(c, run[k].ring)
  {
    hide Next, EntersWrongly, Inv;
    if k == 0 {
      CreateHasInv(c);
      assert Create(c).(joins := map[]) == Create(c);
    } else {
      SoundUpTo(c, run, k - 1);
      assert Next(run[k - 1], run[k]);
      StepIsSoundIff(c, run[k - 1], run[k]);
    }
  }

  /**
   * In every run in which whoever enters has found a member on its side of the creator, each member reaches the
   * creator over edges that do not jump over it, whoever was asked and whoever answered.
   */
  lemma SoundRuns(c: int, run: seq<Wide>)
    requires OnCircle(c) && Run(c, run) && forall i | 0 < i < |run| :: !EntersWrongly(c, run[i - 1], run[i])
    ensures var s := run[|run| - 1].ring;
      && Sound(c, s) && s.succ.Keys == s.members && Closed(s.succ)
      && forall n | n in s.members :: Arc(s.succ, n, c) && EdgeOk(c, n, s.succ[n])
  {
    hide Next, EntersWrongly, EdgeOk, Arc;
    var s := run[|run| - 1].ring;
    SoundUpTo(c, run, |run| - 1);
    hide Inv;
    InvParts(c, s.(joins := map[]), c);
    forall n | n in s.members ensures Arc(s.succ, n, c) { ArcToCreator(s.succ, c, n); }
  }

  /** That is so if no request is answered by a node that has not entered. */
  lemma AmongMembers(c: int, run: seq<Wide>)
    requires OnCircle(c) && Run(c, run) && forall i | 0 < i < |run| :: !AnsweredTooEarly(run[i - 1], run[i])
    ensures forall i | 0 < i < |run| :: !EntersWrongly(c, run[i - 1], run[i])
    ensures var s := run[|run| - 1].ring;
      && Inv(c, s) && s.succ.Keys == s.members && Closed(s.succ)
      && forall n | n in s.members :: Arc(s.succ, n, c) && EdgeOk(c, n, s.succ[n])
  {
    hide Next, AnsweredTooEarly, Inv, EdgeOk, Arc;
    RunIsRightIff(c, run);
    forall i | 0 < i < |run| ensures !EntersWrongly(c, run[i - 1], run[i]) {
      assert Inv(c, run[i - 1].ring);
      RightEntries(c, run[i - 1], run[i]);
    }
    SoundRuns(c, run);
  }

  lemma RightEntries(c: int, w: Wide, v: Wide)
    requires Inv(c, w.ring)
    ensures !EntersWrongly(c, w, v)
  {
    hide Inv, EdgeOk, EdgesOk;
    forall n ensures !(Enter(w.ring, n, v.ring) && !MayEnter(c, w.ring, n)) { InvParts(c, w.ring, n); }
  }

  // ----- runs in which one has not

  lemma Started(w: Wide, n: int) returns (v: Wide)
    requires OnCircle(n) && n !in w.ring.members && n !in w.up
    ensures Next(w, v) && v == w.(up := w.up + {n})
  {
    v := w.(up := w.up + {n});
    assert Starts(w, n, v);
  }

  lemma Requested(w: Wide, n: int, m: int) returns (v: Wide)
    requires n in w.up && OnCircle(n) && n !in w.ring.members && n !in w.ring.joins && m != n &&
        (m in w.ring.members || m in w.up)
    ensures Next(w, v) && v == w.(ring := w.ring.(joins := w.ring.joins[n := Finding(m)]))
  {
    v := w.(ring := w.ring.(joins := w.ring.joins[n := Finding(m)]));
    assert Asks(w, n, m, v);
  }

  lemma Alone(w: Wide, n: int, m: int) returns (v: Wide)
    requires n in w.ring.joins && w.ring.joins[n] == Finding(m) && m in w.up && m !in w.ring.members &&
        m !in w.ring.pred
    ensures Next(w, v) && v == w.(ring := w.ring.(joins := w.ring.joins[n := Found(m)]))
  {
    v := w.(ring := w.ring.(joins := w.ring.joins[n := Found(m)]));
    assert AnswersAlone(w, n, v);
  }

  lemma Went(w: Wide, n: int, t: State) returns (v: Wide)
    requires AnswerJoin(w.ring, n, t) || Enter(w.ring, n, t)
    ensures Next(w, v) && v == w.(ring := t)
  {
    hide AnswerJoin, Enter;
    v := w.(ring := t);
    assert Goes(w, n, v);
  }

  lemma Entering(w: Wide, n: int) returns (v: Wide)
    requires n in w.ring.joins && w.ring.joins[n].Found?
    ensures Next(w, v) && v == w.(ring := Entered(w.ring, n, Idle))
  {
    var t := Entered(w.ring, n, Idle);
    assert Enter(w.ring, n, t) by { var z := Idle; assert t == Entered(w.ring, n, z); }
    v := Went(w, n, t);
  }

  /** Node 0, alone with successor 0, answers for any identifier. */
  lemma ZeroAnswers(w: Wide, n: int) returns (v: Wide)
    requires n in w.ring.joins && w.ring.joins[n] == Finding(0) && 0 in w.ring.succ && w.ring.succ[0] == 0 &&
        OnCircle(n) && n != 0
    ensures Next(w, v) && v == w.(ring := w.ring.(joins := w.ring.joins[n := Found(0)]))
  {
    hide Between;
    SelfBetween(0, n);
    var t := w.ring.(joins := w.ring.joins[n := Found(0)]);
    assert AnswerJoin(w.ring, n, t);
    v := Went(w, n, t);
  }

  /**
   * Node 5 is asking node 0 when node 10 asks 5, which names itself. Once 10 has entered, its successor is no
   * member, so nothing leads from it to the creator; once 5 has, too, the edge from 10 to 5 jumps over the creator.
   */
  lemma OneAskedTooEarly() returns (run: seq<Wide>, k: nat)
    ensures Run(0, run) && k < |run|
    ensures var s := run[k].ring; 10 in s.members && 10 in s.succ && s.succ[10] !in s.members && 5 in s.joins
    ensures var s := run[|run| - 1].ring;
      Closed(s.succ) && 10 in s.members && 10 in s.succ && s.succ[10] == 5 && !EdgeOk(0, 10, 5) && !Arc(s.succ, 10, 0)
  {
    hide Next, Arc, EdgeOk;
    var w0 := Wide(Create(0), {});
    var w1 := Started(w0, 5);
    var w2 := Started(w1, 10);
    var w3 := Requested(w2, 5, 0);
    var w4 := Requested(w3, 10, 5);
    var w5 := Alone(w4, 10, 5);
    var w6 := Entering(w5, 10);
    var w7 := ZeroAnswers(w6, 5);
    var w8 := Entering(w7, 5);
    run, k := [w0, w1, w2, w3, w4, w5, w6, w7, w8], 6;
    PastCreator(w8.ring.succ);
  }

  lemma PastCreator(succ: map<int, int>)
    requires Closed(succ) && 10 in succ && succ[10] == 5
    ensures !EdgeOk(0, 10, 5) && !Arc(succ, 10, 0)
  {
    hide Distance;
    DistanceIs(10, 5);
    DistanceIs(10, 0);
  }

  lemma {:induction false} TwoOnly(succ: map<int, int>, n: int, k: nat)
    requires Closed(succ) && 5 in succ && 10 in succ && succ[5] == 10 && succ[10] == 5 && (n == 5 || n == 10)
    ensures Hops(succ, n, k) == 5 || Hops(succ, n, k) == 10
    decreases k
  {
    if k > 0 { TwoOnly(succ, succ[n], k - 1); }
  }

  /** Nodes 5 and 10 ask each other: both enter, and no number of hops leads from them to the creator. */
  lemma RingSplits() returns (run: seq<Wide>)
    ensures Run(0, run)
    ensures var s := run[|run| - 1].ring;
      s.members == {0, 5, 10} && s.succ.Keys == s.members && Closed(s.succ) &&
          forall k: nat :: Hops(s.succ, 5, k) != 0 && Hops(s.succ, 10, k) != 0
  {
    hide Next, Hops;
    var w0 := Wide(Create(0), {});
    var w1 := Started(w0, 5);
    var w2 := Started(w1, 10);
    var w3 := Requested(w2, 5, 10);
    var w4 := Requested(w3, 10, 5);
    var w5 := Alone(w4, 5, 10);
    var w6 := Alone(w5, 10, 5);
    var w7 := Entering(w6, 5);
    var w8 := Entering(w7, 10);
    run := [w0, w1, w2, w3, w4, w5, w6, w7, w8];
    forall k: nat ensures Hops(w8.ring.succ, 5, k) != 0 && Hops(w8.ring.succ, 10, k) != 0 {
      TwoOnly(w8.ring.succ, 5, k);
      TwoOnly(w8.ring.succ, 10, k);
    }
  }
}
