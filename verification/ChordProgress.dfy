/**
 * The ring can always come to rest: from every reachable state some steps without new members lead to the ideal ring.
 */
module ChordProgress {
  import opened Keys
  import opened ChordProtocol
  import opened ChordInvariant
  import opened ChordGaps
  import opened ChordStabilization

  lemma SteadySnoc(c: int, run: seq<State>, t: State)
    requires Steady(c, run) && Next(run[|run| - 1], t) && t.members == run[0].members
    ensures Steady(c, run + [t])
  {
    hide Next, Inv;
    var more := run + [t];
    forall i | 0 < i < |more| ensures Next(more[i - 1], more[i]) && more[i].members == more[0].members {
      if i < |run| { assert Next(run[i - 1], run[i]) && run[i].members == run[0].members; }
    }
  }

  /** The next step of a node's stabilize loop. */
  function AfterStabilize(s: State, n: int): State
    requires n in s.stab && n in s.succ
  {
    match s.stab[n]
    case Idle => s.(stab := s.stab[n := Asked(s.succ[n])])
    case Asked(q) => s.(stab := s.stab[n := if q in s.pred then Got(q, s.pred[q]) else Telling(q)])
    case Got(q, p) =>
      if Adopts(n, q, s.succ[n], p) then s.(succ := s.succ[n := p], stab := s.stab[n := Telling(p)])
      else s.(stab := s.stab[n := Telling(q)])
    case Telling(q) => s.(pred := Notify(s.pred, q, n), stab := s.stab[n := Idle])
  }

  lemma OneStepLess(s: State, n: int)
    requires n in s.stab && n in s.succ && s.stab[n] != Idle
    ensures n in AfterStabilize(s, n).stab && StepsLeft(AfterStabilize(s, n).stab[n]) < StepsLeft(s.stab[n])
  {
    hide Adopts, Notify;
  }

  /** What the continuation of a steady run has come to. */
  ghost predicate Continues(c: int, run: seq<State>, more: seq<State>) {
    && run != [] && |run| <= |more| && more[..|run|] == run && Steady(c, more)
    && (Frozen(run[|run| - 1], more[|more| - 1]) || Insiders(more[|more| - 1]) < Insiders(run[|run| - 1]))
  }

  /** A node's loop can always go on; the step changes nothing of the ring, or brings it closer to the ideal one. */
  lemma CanStabilize(c: int, run: seq<State>, n: int) returns (more: seq<State>)
    requires Steady(c, run) && n in run[|run| - 1].members
    ensures var s := run[|run| - 1];
      && n in s.stab && n in s.succ && more == run + [AfterStabilize(s, n)] && Continues(c, run, more)
  {
    hide Inv, Between, Notify, Insiders, Gaps, JoinStep, GreetStep, Steady;
    LastOfSteady(c, run);
    var s := run[|run| - 1];
    InvParts(c, s, n);
    var t := AfterStabilize(s, n);
    assert StabilizeStep(s, n, t);
    assert Next(s, t);
    hide AfterStabilize, StabilizeStep;
    ChangeShrinks(c, s, t) by { StabilizeKeepsMembers(s, n, t); }
    StabilizeKeepsMembers(s, n, t);
    SteadySnoc(c, run, t);
    more := run + [t];
  }

  lemma StabilizeKeepsMembers(s: State, n: int, t: State)
    requires StabilizeStep(s, n, t)
    ensures t.members == s.members
  {
    hide Notify, Adopts;
  }

  lemma LastOfSteady(c: int, run: seq<State>)
    requires Steady(c, run)
    ensures run != [] && Inv(c, run[|run| - 1]) && run[|run| - 1].members == run[0].members
  {
    hide Inv, Next, Insiders;
    Later(c, run, 0, |run| - 1);
  }

  /** How many steps are left of a round. */
  function StepsLeft(z: Stabilizer): nat {
    match z
    case Idle => 0
    case Telling(_) => 1
    case Got(_, _) => 2
    case Asked(_) => 3
  }

  lemma ContinuesOn(c: int, run: seq<State>, more: seq<State>, most: seq<State>)
    requires Continues(c, run, more) && Continues(c, more, most)
    ensures Continues(c, run, most)
  {
    hide Steady, Insiders, Gaps;
    assert most[..|run|] == most[..|more|][..|run|];
    var s, t, u := run[|run| - 1], more[|more| - 1], most[|most| - 1];
    if Frozen(s, t) { SameMeasures(s, t); }
    if Frozen(t, u) { SameMeasures(t, u); }
  }

  /** A node finishes the round that it is in. */
  lemma {:induction false} ToIdle(c: int, run: seq<State>, n: int) returns (more: seq<State>)
    requires Steady(c, run) && n in run[|run| - 1].members
    ensures Continues(c, run, more) && n in more[|more| - 1].stab && more[|more| - 1].stab[n] == Idle
    decreases if n in run[|run| - 1].stab then StepsLeft(run[|run| - 1].stab[n]) else 4
  {
    hide Steady, Insiders, Inv, AfterStabilize, EdgesOk, Closed, StabOk, PredOk, GreetOk, JoinOk, StepsLeft;
    LastOfSteady(c, run);
    var s := run[|run| - 1];
    InvParts(c, s, n);
    if s.stab[n] == Idle {
      more := run;
    } else {
      var next := CanStabilize(c, run, n);
      OneStepLess(s, n);
      LastOfSteady(c, next);
      more := ToIdle(c, next, n);
      ContinuesOn(c, run, next, more);
    }
  }

  /** A whole round of a node that is not settled brings the ring closer to the ideal one. */
  lemma RoundHelps(c: int, run: seq<State>, n: int) returns (more: seq<State>)
    requires Steady(c, run)
    requires var s := run[|run| - 1];
      n in s.members && n in s.succ && n in s.stab && s.stab[n] == Idle && !Settled(s.succ, s.pred, n)
    ensures Continues(c, run, more) && Insiders(more[|more| - 1]) < Insiders(run[|run| - 1])
  {
    hide Steady, Insiders, Gaps, Inv, Notify, Between;
    LastOfSteady(c, run);
    var s := run[|run| - 1];
    var q := s.succ[n];
    var r1 := CanStabilize(c, run, n);
    var r2 := CanStabilize(c, r1, n);
    var t := r2[|r2| - 1];
    assert Frozen(s, t);
    SameMeasures(s, t);
    assert Continues(c, run, r2);
    more := LastSteps(c, r2, n);
    ContinuesOn(c, run, r2, more);
  }

  /** With the answer at hand, the node adopts it, or tells its successor. */
  lemma LastSteps(c: int, run: seq<State>, n: int) returns (more: seq<State>)
    requires Steady(c, run)
    requires var s := run[|run| - 1];
      && n in s.members && n in s.succ && n in s.stab && !Settled(s.succ, s.pred, n)
      && s.stab[n] == (if s.succ[n] in s.pred then Got(s.succ[n], s.pred[s.succ[n]]) else Telling(s.succ[n]))
    ensures Continues(c, run, more) && Insiders(more[|more| - 1]) < Insiders(run[|run| - 1])
  {
    hide Steady, Insiders, Gaps, Inv, Notify, Between;
    LastOfSteady(c, run);
    var s := run[|run| - 1];
    var q := s.succ[n];
    if q in s.pred && Between(n, q, s.pred[q]) {
      more := CanStabilize(c, run, n);
      AdoptMoves(c, s, n, q, s.pred[q]);
    } else if q in s.pred {
      var r := CanStabilize(c, run, n);
      var t := r[|r| - 1];
      assert Frozen(s, t) && t.stab[n] == Telling(q);
      SameMeasures(s, t);
      more := CanStabilize(c, r, n);
      assert Continues(c, run, r) && Continues(c, r, more);
      ContinuesOn(c, run, r, more);
    } else {
      more := CanStabilize(c, run, n);
    }
  }

  lemma {:induction false} ToIdeal(c: int, run: seq<State>) returns (more: seq<State>)
    requires Steady(c, run)
    ensures |run| <= |more| && more[..|run|] == run && Steady(c, more)
    ensures var last := more[|more| - 1]; last.succ.Keys == last.members && Ideal(last)
    decreases Insiders(run[|run| - 1])
  {
    hide Steady, Insiders, Gaps, Inv, Settled, Ideal;
    LastOfSteady(c, run);
    var s := run[|run| - 1];
    SettledIffIdeal(c, s);
    if n :| n in s.members && !Settled(s.succ, s.pred, n) {
      var idle := ToIdle(c, run, n);
      var next := idle;
      var t := idle[|idle| - 1];
      if Frozen(s, t) {
        LastOfSteady(c, idle);
        SameMeasures(s, t);
        next := RoundHelps(c, idle, n);
      }
      more := ToIdeal(c, next);
      assert more[..|run|] == more[..|next|][..|run|] && next[..|run|] == next[..|idle|][..|run|];
    } else {
      more := run;
    }
  }

  /** Every run can be continued, without new members, to one that ends in the ideal ring. */
  lemma CanConverge(c: int, run: seq<State>) returns (more: seq<State>)
    requires OnCircle(c) && Run(c, run)
    ensures Run(c, run + more)
    ensures forall i | 0 <= i < |more| :: more[i].members == run[|run| - 1].members
    ensures var last := (run + more)[|run + more| - 1]; last.succ.Keys == last.members && Ideal(last)
  {
    hide Inv, Next, Ideal;
    var s := run[|run| - 1];
    RunKeepsInv(c, run);
    var steady := ToIdeal(c, [s]);
    more := steady[1..];
    assert steady[..1] == [s];
    var all := run + more;
    forall i | 0 <= i < |all| - 1 ensures Next(all[i], all[i + 1]) {
      if i < |run| - 1 {
        assert Next(run[i], run[i + 1]);
      } else {
        var k := i + 1 - |run| + 1;
        assert all[i + 1] == steady[k] && all[i] == steady[k - 1];
        assert Next(steady[k - 1], steady[k]);
      }
    }
  }
}
