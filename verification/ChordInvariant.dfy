/** What every step of the join, stabilize and notify protocol keeps. */
module ChordInvariant {
  import opened Keys
  import opened ChordProtocol

  /** From p one gets to s: along successors inside the arc between them, and not over the creator. */
  ghost predicate Reaches(c: int, succ: map<int, int>, p: int, s: int)
    requires Closed(succ)
  {
    p in succ && s in succ && EdgeOk(c, p, s) && Arc(succ, p, s)
  }

  /** A stabilizing node looks at its successor, or, if it joined in the middle of a round, at itself. */
  ghost predicate StabOk(c: int, succ: map<int, int>, n: int, z: Stabilizer)
    requires Closed(succ) && n in succ
  {
    match z
    case Idle => true
    case Asked(q) => q == succ[n] || (q == n && n != c)
    case Got(q, p) => (q == succ[n] || (q == n && n != c)) && p != q && Reaches(c, succ, p, q)
    case Telling(q) => q == n || Reaches(c, succ, n, q)
  }

  ghost predicate GreetOk(c: int, succ: map<int, int>, n: int, g: Greeting)
    requires Closed(succ)
  {
    n in succ && (g.Greet? ==> Reaches(c, succ, n, g.s))
  }

  /** Whatever a new node asks, what it finds is a member, and its edge to that one is right. */
  ghost predicate JoinOk(c: int, succ: map<int, int>, n: int, j: Joining) {
    OnCircle(n) && n !in succ && (j.Found? ==> j.s in succ && EdgeOk(c, n, j.s))
  }

  ghost predicate PredOk(c: int, succ: map<int, int>, s: int, p: int)
    requires Closed(succ)
  {
    p != s && Reaches(c, succ, p, s)
  }

  /** Successors are members, and no edge jumps over the creator. */
  ghost predicate EdgesOk(c: int, succ: map<int, int>) {
    OnCircle(c) && c in succ && Closed(succ) && forall n | n in succ :: EdgeOk(c, n, succ[n])
  }

  ghost predicate PredsOk(c: int, succ: map<int, int>, pred: map<int, int>)
    requires Closed(succ)
  {
    forall x | x in pred :: PredOk(c, succ, x, pred[x])
  }

  ghost predicate StabsOk(c: int, succ: map<int, int>, stab: map<int, Stabilizer>)
    requires Closed(succ)
  {
    stab.Keys == succ.Keys && forall n | n in stab :: StabOk(c, succ, n, stab[n])
  }

  ghost predicate GreetsOk(c: int, succ: map<int, int>, greets: map<int, Greeting>)
    requires Closed(succ)
  {
    forall n | n in greets :: GreetOk(c, succ, n, greets[n])
  }

  ghost predicate JoinsOk(c: int, succ: map<int, int>, joins: map<int, Joining>) {
    forall n | n in joins :: JoinOk(c, succ, n, joins[n])
  }

  ghost predicate Inv(c: int, s: State) {
    && EdgesOk(c, s.succ) && s.succ.Keys == s.members
    && PredsOk(c, s.succ, s.pred) && StabsOk(c, s.succ, s.stab)
    && GreetsOk(c, s.succ, s.greets) && JoinsOk(c, s.succ, s.joins)
  }

  lemma CreateHasInv(c: int)
    requires OnCircle(c)
    ensures Inv(c, Create(c))
  {
    SelfBetween(c, c);
  }

  // ----- how the successors change

  /** Whatever was reached still is. */
  ghost predicate Keeps(c: int, a: map<int, int>, b: map<int, int>) {
    && Closed(a) && Closed(b) && a.Keys <= b.Keys
    && forall x, y | Reaches(c, a, x, y) :: Reaches(c, b, x, y)
  }

  lemma StabCarries(c: int, a: map<int, int>, b: map<int, int>, n: int, z: Stabilizer)
    requires Keeps(c, a, b) && n in a && b[n] == a[n] && StabOk(c, a, n, z)
    ensures StabOk(c, b, n, z)
  {
    hide Reaches;
  }

  lemma OthersCarry(c: int, s: State, b: map<int, int>)
    requires Inv(c, s) && Keeps(c, s.succ, b)
    ensures PredsOk(c, b, s.pred) && GreetsOk(c, b, s.greets)
  {
    hide Reaches, StabsOk, JoinsOk;
  }

  lemma JoinsCarry(c: int, a: map<int, int>, joins: map<int, Joining>, b: map<int, int>)
    requires JoinsOk(c, a, joins) && a.Keys <= b.Keys && forall n | n in joins :: n !in b
    ensures JoinsOk(c, b, joins)
  {
  }

  lemma EdgeReaches(c: int, succ: map<int, int>, n: int)
    requires EdgesOk(c, succ) && n in succ
    ensures Reaches(c, succ, n, succ[n])
  {
    hide Between, Distance;
    var q := succ[n];
    assert OnCircle(n) && OnCircle(q);
    if n != q { ArcStep(succ, n, q); }
  }

  lemma AdoptKeeps(c: int, succ: map<int, int>, n: int, p: int)
    requires EdgesOk(c, succ) && n in succ && Between(n, succ[n], p) && Reaches(c, succ, p, succ[n])
    ensures Keeps(c, succ, succ[n := p]) && EdgesOk(c, succ[n := p]) && Reaches(c, succ[n := p], n, p)
  {
    hide Between, Distance, Arc;
    var b := succ[n := p];
    forall x, y | Reaches(c, succ, x, y) ensures Reaches(c, b, x, y) {
      ArcAfterAdopt(succ, n, p, x, y);
    }
    SplitEdge(c, n, succ[n], p);
    assert EdgesOk(c, b) by { hide EdgeOk; assert OnCircle(p); }
    EdgeReaches(c, b, n);
  }

  lemma EnterKeeps(c: int, succ: map<int, int>, n: int, t: int)
    requires EdgesOk(c, succ) && n !in succ && t in succ && EdgeOk(c, n, t)
    ensures Keeps(c, succ, succ[n := t]) && EdgesOk(c, succ[n := t])
  {
    hide Between, Distance, Arc;
    var b := succ[n := t];
    forall x, y | Reaches(c, succ, x, y) ensures Reaches(c, b, x, y) {
      ArcAfterEnter(succ, n, t, x, y);
    }
  }

  /** A node that joined in the middle of a round with itself adopts nothing in that round. */
  lemma StaleAdoptsNothing(c: int, succ: map<int, int>, n: int, p: int)
    requires EdgesOk(c, succ) && n in succ && n != c && p != n && Reaches(c, succ, p, n)
    ensures !Between(n, succ[n], p)
  {
    hide Between, Distance, Arc, EdgeOk, Rank;
    OnEdge(c, p, n);
    OnEdge(c, n, succ[n]);
    EdgeRank(c, p, n);
    InsideEdge(c, n, succ[n], p);
  }

  /** A node can enter at any point of a round with itself. */
  lemma EntersInAnyRound(s: State, n: int, z: Stabilizer)
    requires n in s.joins && s.joins[n].Found? && z in {Idle, Asked(n), Telling(n)}
    ensures Next(s, Entered(s, n, z))
  {
    assert JoinStep(s, n, Entered(s, n, z));
  }

  // ----- the steps

  /** Only a node's own record of its predecessor changes, to a node that reaches it. */
  lemma NotifyKeeps(c: int, s: State, q: int, n: int)
    requires Inv(c, s) && (q == n || Reaches(c, s.succ, n, q))
    ensures Inv(c, s.(pred := Notify(s.pred, q, n)))
  {
    hide Reaches, StabsOk, GreetsOk, JoinsOk, EdgesOk, Between;
  }

  lemma StabKeeps(c: int, s: State, n: int, z: Stabilizer)
    requires Inv(c, s) && n in s.succ && StabOk(c, s.succ, n, z)
    ensures Inv(c, s.(stab := s.stab[n := z]))
  {
    hide StabOk, PredsOk, GreetsOk, JoinsOk, EdgesOk;
  }

  lemma InvParts(c: int, s: State, n: int)
    requires Inv(c, s)
    ensures EdgesOk(c, s.succ) && Closed(s.succ) && s.succ.Keys == s.members
    ensures n in s.succ ==> n in s.stab && StabOk(c, s.succ, n, s.stab[n])
    ensures n in s.pred ==> PredOk(c, s.succ, n, s.pred[n])
    ensures n in s.greets ==> GreetOk(c, s.succ, n, s.greets[n])
    ensures n in s.joins ==> JoinOk(c, s.succ, n, s.joins[n])
  {
    hide StabOk, PredOk, GreetOk, JoinOk;
  }

  lemma StabilizeKeepsInv(c: int, s: State, n: int, t: State)
    requires Inv(c, s) && StabilizeStep(s, n, t)
    ensures Inv(c, t)
  {
    hide Inv, Reaches, GreetOk, JoinOk, EdgesOk, Between, Notify, Closed;
    InvParts(c, s, n);
    match s.stab[n]
    case Idle => StabKeeps(c, s, n, Asked(s.succ[n]));
    case Asked(q) =>
      InvParts(c, s, q);
      EdgeReaches(c, s.succ, n);
      StabKeeps(c, s, n, if q in s.pred then Got(q, s.pred[q]) else Telling(q));
    case Got(q, p) =>
      if Adopts(n, q, s.succ[n], p) {
        AdoptKeepsInv(c, s, n, q, p);
      } else {
        EdgeReaches(c, s.succ, n);
        StabKeeps(c, s, n, Telling(q));
      }
    case Telling(q) =>
      NotifyKeeps(c, s, q, n);
      StabKeeps(c, s.(pred := Notify(s.pred, q, n)), n, Idle);
  }

  /** All loops but n's carry over; n's is now z. */
  lemma StabsCarry(c: int, a: map<int, int>, stab: map<int, Stabilizer>, n: int, z: Stabilizer, b: map<int, int>)
    requires Keeps(c, a, b) && StabsOk(c, a, stab) && n in b && b == a[n := b[n]] && StabOk(c, b, n, z)
    ensures StabsOk(c, b, stab[n := z])
  {
    hide StabOk, Reaches, Closed;
    forall m | m in stab && m != n ensures StabOk(c, b, m, stab[m]) {
      StabCarries(c, a, b, m, stab[m]);
    }
    assert b.Keys == a.Keys + {n};
    assert stab[n := z].Keys == stab.Keys + {n};
  }

  lemma AdoptKeepsInv(c: int, s: State, n: int, q: int, p: int)
    requires Inv(c, s) && n in s.succ && n in s.stab && s.stab[n] == Got(q, p) && Between(n, s.succ[n], p)
    ensures Inv(c, s.(succ := s.succ[n := p], stab := s.stab[n := Telling(p)]))
  {
    hide PredsOk, StabsOk, GreetsOk, JoinOk, EdgesOk, Between, Reaches, Keeps, Closed;
    InvParts(c, s, n);
    if q == n && n != c { StaleAdoptsNothing(c, s.succ, n, p); }
    var b := s.succ[n := p];
    AdoptKeeps(c, s.succ, n, p);
    OthersCarry(c, s, b);
    SameKeys(c, s.succ, n, p);
    StabsCarry(c, s.succ, s.stab, n, Telling(p), b);
    JoinersOutside(c, s);
    JoinsCarry(c, s.succ, s.joins, b);
  }

  lemma SameKeys(c: int, succ: map<int, int>, n: int, p: int)
    requires n in succ
    ensures succ[n := p].Keys == succ.Keys
  {
  }

  lemma JoinersOutside(c: int, s: State)
    requires Inv(c, s)
    ensures forall n | n in s.joins :: n !in s.succ
  {
    hide PredsOk, StabsOk, GreetsOk, EdgesOk;
  }

  lemma GreetKeepsInv(c: int, s: State, n: int, t: State)
    requires Inv(c, s) && GreetStep(s, n, t)
    ensures Inv(c, t)
  {
    hide Reaches, StabsOk, PredsOk, JoinsOk, EdgesOk, Notify;
    InvParts(c, s, n);
    match s.greets[n]
    case Ready => EdgeReaches(c, s.succ, n);
    case Greet(q) => NotifyKeeps(c, s, q, n);
  }

  lemma JoinChangeKeeps(c: int, s: State, n: int, j: Joining)
    requires Inv(c, s) && JoinOk(c, s.succ, n, j)
    ensures Inv(c, s.(joins := s.joins[n := j]))
  {
    hide StabsOk, GreetsOk, PredsOk, EdgesOk, JoinOk;
  }

  lemma AnswerKeepsInv(c: int, s: State, n: int, t: State)
    requires Inv(c, s) && AnswerJoin(s, n, t)
    ensures Inv(c, t)
  {
    hide Between, EdgeOk, Inv, StabOk, PredOk, GreetOk;
    InvParts(c, s, n);
    var m := s.joins[n].at;
    if Between(m, s.succ[m], n) {
      SplitEdge(c, m, s.succ[m], n);
      JoinChangeKeeps(c, s, n, Found(s.succ[m]));
    } else {
      var k :| k in s.members && Between(m, n, k) && t == s.(joins := s.joins[n := Finding(k)]);
      JoinChangeKeeps(c, s, n, Finding(k));
    }
  }

  lemma EnterKeepsInv(c: int, s: State, n: int, z: Stabilizer)
    requires Inv(c, s) && n in s.joins && s.joins[n].Found? && (z == Idle || z == Asked(n) || z == Telling(n))
    ensures Inv(c, Entered(s, n, z))
  {
    hide EdgesOk, EdgeOk, Keeps, Closed, Reaches, PredsOk, StabsOk, JoinsOk, GreetsOk;
    InvParts(c, s, n);
    JoinersOutside(c, s);
    var q := s.joins[n].s;
    var b := s.succ[n := q];
    CreatorIn(c, s.succ);
    EnterKeeps(c, s.succ, n, q);
    CreatorIn(c, b);
    OthersCarry(c, s, b);
    StabsCarry(c, s.succ, s.stab, n, z, b);
    NewGreet(c, b, s.greets, n);
    assert b.Keys == s.succ.Keys + {n};
    OtherJoins(c, s.succ, s.joins, n);
    JoinsCarry(c, s.succ, s.joins - {n}, b);
  }

  lemma OtherJoins(c: int, succ: map<int, int>, joins: map<int, Joining>, n: int)
    requires JoinsOk(c, succ, joins)
    ensures JoinsOk(c, succ, joins - {n})
  {
    hide JoinOk;
  }

  lemma CreatorIn(c: int, succ: map<int, int>)
    requires EdgesOk(c, succ)
    ensures c in succ && Closed(succ)
  {
  }

  lemma NewGreet(c: int, b: map<int, int>, greets: map<int, Greeting>, n: int)
    requires Closed(b) && n in b && GreetsOk(c, b, greets)
    ensures GreetsOk(c, b, greets[n := Ready])
  {
    hide Reaches;
  }

  lemma JoinKeepsInv(c: int, s: State, n: int, t: State)
    requires Inv(c, s) && JoinStep(s, n, t)
    ensures Inv(c, t)
  {
    hide Inv, AnswerJoin, Entered, Between, EdgeOk, EdgesOk;
    InvParts(c, s, n);
    if AskToJoin(s, n, t) {
      var m :| m in s.members && t == s.(joins := s.joins[n := Finding(m)]);
      JoinChangeKeeps(c, s, n, Finding(m));
    } else if AnswerJoin(s, n, t) {
      AnswerKeepsInv(c, s, n, t);
    } else {
      var z :| (z == Idle || z == Asked(n) || z == Telling(n)) && t == Entered(s, n, z);
      EnterKeepsInv(c, s, n, z);
    }
  }

  lemma NextKeepsInv(c: int, s: State, t: State)
    requires Inv(c, s) && Next(s, t)
    ensures Inv(c, t)
  {
    hide Inv, JoinStep, GreetStep, StabilizeStep;
    var n :| JoinStep(s, n, t) || GreetStep(s, n, t) || StabilizeStep(s, n, t);
    if JoinStep(s, n, t) { JoinKeepsInv(c, s, n, t); }
    else if GreetStep(s, n, t) { GreetKeepsInv(c, s, n, t); }
    else { StabilizeKeepsInv(c, s, n, t); }
  }

  lemma {:induction false} RunKeepsInv(c: int, run: seq<State>)
    requires OnCircle(c) && Run(c, run)
    ensures Inv(c, run[|run| - 1])
  {
    hide Inv, Next;
    if |run| == 1 {
      CreateHasInv(c);
    } else {
      var front := run[..|run| - 1];
      assert Run(c, front) by {
        forall i | 0 <= i < |front| - 1 ensures Next(front[i], front[i + 1]) { assert Next(run[i], run[i + 1]); }
      }
      RunKeepsInv(c, front);
      assert Next(run[|run| - 2], run[|run| - 1]);
      NextKeepsInv(c, run[|run| - 2], run[|run| - 1]);
    }
  }

  /**
   * In every reachable state: each member reaches the creator along first successors; each recorded
   * predecessor reaches its node inside the arc between them; and no edge jumps over the creator.
   */
  lemma ReachableStates(c: int, run: seq<State>)
    requires OnCircle(c) && Run(c, run)
    ensures var s := run[|run| - 1];
      && s.succ.Keys == s.members && Closed(s.succ) && c in s.members
      && (forall n | n in s.members :: Arc(s.succ, n, c) && !Between(n, s.succ[n], c))
      && (forall x | x in s.pred ::
          x in s.members && s.pred[x] in s.members && s.pred[x] != x && Arc(s.succ, s.pred[x], x))
  {
    hide StabsOk, GreetsOk, JoinsOk, Between, Arc;
    var s := run[|run| - 1];
    RunKeepsInv(c, run);
    forall n | n in s.members ensures Arc(s.succ, n, c) {
      ArcToCreator(s.succ, c, n);
    }
  }

  /** The nodes that new nodes are asking are members, so that each of them can be answered. */
  lemma {:induction false} AskedAreMembers(c: int, run: seq<State>)
    requires OnCircle(c) && Run(c, run)
    ensures AskMembers(run[|run| - 1].joins, run[|run| - 1].members)
  {
    hide Next, Inv;
    if |run| > 1 {
      var front := run[..|run| - 1];
      assert Run(c, front) by {
        forall i | 0 <= i < |front| - 1 ensures Next(front[i], front[i + 1]) { assert Next(run[i], run[i + 1]); }
      }
      AskedAreMembers(c, front);
      assert Next(run[|run| - 2], run[|run| - 1]);
      StepAsksMembers(run[|run| - 2], run[|run| - 1]);
    }
  }

  ghost predicate AskMembers(joins: map<int, Joining>, members: set<int>) {
    forall n | n in joins && joins[n].Finding? :: joins[n].at in members
  }

  lemma JoinAsksMembers(s: State, n: int, t: State)
    requires JoinStep(s, n, t) && AskMembers(s.joins, s.members)
    ensures AskMembers(t.joins, t.members)
  {
    hide Between;
  }

  lemma StepAsksMembers(s: State, t: State)
    requires Next(s, t) && AskMembers(s.joins, s.members)
    ensures AskMembers(t.joins, t.members)
  {
    hide Between, Notify, JoinStep, AskMembers;
    var n :| JoinStep(s, n, t) || GreetStep(s, n, t) || StabilizeStep(s, n, t);
    if JoinStep(s, n, t) { JoinAsksMembers(s, n, t); }
  }
}
