/**
 * A new node gives up for good if the node it found does not take it for its predecessor. When that happens, and
 * that it can happen although no node failed.
 */
module JoinRefusal {
  import opened Keys
  import opened ChordProtocol
  import opened ChordInvariant

  ghost predicate Refused(s: State, n: int) {
    && n in s.greets && s.greets[n].Greet?
    && var q := s.greets[n].s; !Accepts(q in s.pred, if q in s.pred then s.pred[q] else q, q, n)
  }

  /** A greeting is refused exactly if the greeted node is the new one itself, or knows a nearer predecessor already. */
  lemma RefusedIff(c: int, s: State, n: int)
    requires Inv(c, s) && n in s.greets && s.greets[n].Greet?
    ensures var q := s.greets[n].s; Refused(s, n) <==> n == q || (q in s.pred && Between(n, q, s.pred[q]))
  {
    hide Inv, Between, Arc, EdgesOk, StabOk, JoinOk;
    var q := s.greets[n].s;
    InvParts(c, s, n);
    InvParts(c, s, q);
    if n != q && q in s.pred {
      SelfBetween(n, q);
      if s.pred[q] != n { EitherIsCloser(n, s.pred[q], q); }
    }
  }

  // ----- a run in which it happens

  function Asks(s: State, n: int, m: int): State { s.(joins := s.joins[n := Finding(m)]) }

  function Finds(s: State, n: int, q: int): State { s.(joins := s.joins[n := Found(q)]) }

  function Reads(s: State, n: int): State
    requires n in s.succ
  {
    s.(greets := s.greets[n := Greet(s.succ[n])])
  }

  lemma Joined(s: State, n: int) returns (t: State)
    requires n in s.joins && s.joins[n] == Found(0)
    ensures t == Reads(Entered(s, n, Idle), n)
    ensures Next(s, Entered(s, n, Idle)) && Next(Entered(s, n, Idle), t)
  {
    var u := Entered(s, n, Idle);
    t := Reads(u, n);
    assert JoinStep(s, n, u) by { assert Enter(s, n, u) by { var z := Idle; assert u == Entered(s, n, z); } }
    assert GreetStep(u, n, t);
  }

  lemma AskedNode0(s: State, n: int)
    requires OnCircle(n) && n != 0 && n !in s.members && n !in s.joins && 0 in s.members && 0 in s.succ &&
        s.succ[0] == 0
    ensures Next(s, Asks(s, n, 0)) && Next(Asks(s, n, 0), Finds(Asks(s, n, 0), n, 0))
  {
    hide Between;
    var t := Asks(s, n, 0);
    var u := Finds(t, n, 0);
    SelfBetween(0, n);
    assert JoinStep(s, n, t) by { assert AskToJoin(s, n, t); }
    assert JoinStep(t, n, u) by { assert AnswerJoin(t, n, u); }
  }

  /** Nodes 1 and 2 both find node 0; when 2 has entered, node 0 refuses 1. */
  lemma CanBeRefused() returns (run: seq<State>)
    ensures Run(0, run) && Refused(run[|run| - 1], 1)
  {
    hide Between, JoinStep, GreetStep, StabilizeStep, Next;
    var s0 := Create(0);
    AskedNode0(s0, 2);
    var s1 := Asks(s0, 2, 0);
    var s2 := Finds(s1, 2, 0);
    AskedNode0(s2, 1);
    var s3 := Asks(s2, 1, 0);
    var s4 := Finds(s3, 1, 0);
    var s5 := Entered(s4, 2, Idle);
    var s6 := Joined(s4, 2);
    var s7 := s6.(pred := Notify(s6.pred, 0, 2), greets := s6.greets - {2});
    GreetingNext(s6, 2, s7);
    var s8 := Entered(s7, 1, Idle);
    var s9 := Joined(s7, 1);
    run := [s0, s1, s2, s3, s4, s5, s6, s7, s8, s9];
    NotNearer();
  }

  lemma GreetingNext(s: State, n: int, t: State)
    requires GreetStep(s, n, t)
    ensures Next(s, t)
  {
  }

  lemma NotNearer()
    ensures !Between(2, 0, 1)
  {
    DistanceIs(2, 0);
    DistanceIs(2, 1);
  }
}
