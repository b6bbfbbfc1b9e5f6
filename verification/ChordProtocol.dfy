/**
 * The join, stabilize and notify protocol in runs without failures. Nodes are identified by their points
 * on the circle. A step is one critical section or one answered request, in any interleaving; what a node
 * has read earlier it keeps, and may act on when it is out of date.
 */
module ChordProtocol {
  import opened Keys

  ghost predicate OnCircle(x: int) { 0 <= x < CIRCLE }

  /** The node's stabilize loop: what it has read of its successor, and of its successor's predecessor. */
  datatype Stabilizer = Idle | Asked(s: int) | Got(s: int, p: int) | Telling(s: int)

  /** A node that wants to join: its request is at a member, or was answered. */
  datatype Joining = Finding(at: int) | Found(s: int)

  /** A new member first tells its successor about itself. */
  datatype Greeting = Ready | Greet(s: int)

  datatype State = State(
    members: set<int>, succ: map<int, int>, pred: map<int, int>,
    stab: map<int, Stabilizer>, joins: map<int, Joining>, greets: map<int, Greeting>)

  /** The ring as `c` creates it. */
  function Create(c: int): State {
    State({c}, map[c := c], map[], map[c := Idle], map[], map[])
  }

  /** Node s hears that n may be its predecessor. */
  function Notify(pred: map<int, int>, s: int, n: int): map<int, int> {
    if Accepts(s in pred, if s in pred then pred[s] else s, s, n) then pred[s := n] else pred
  }

  /** A new node sends its request to some member, a device within the ring. `JoinContacts` has the others. */
  ghost predicate AskToJoin(s: State, n: int, t: State) {
    && OnCircle(n) && n !in s.members && n !in s.joins
    && exists m :: m in s.members && t == s.(joins := s.joins[n := Finding(m)])
  }

  /** A member answers the request, or passes it to some member between itself and the new node. */
  ghost predicate AnswerJoin(s: State, n: int, t: State) {
    && n in s.joins && s.joins[n].Finding? && s.joins[n].at in s.succ
    && var m := s.joins[n].at;
       if Between(m, s.succ[m], n) || n == s.succ[m] then t == s.(joins := s.joins[n := Found(s.succ[m])])
       else exists k :: k in s.members && Between(m, n, k) && t == s.(joins := s.joins[n := Finding(k)])
  }

  /** A request to join is answered, or passed on, as a lookup of the new node's identifier is. */
  lemma AnswerIsLookup(s: State, m: Key, q: Key, n: Key, t: State)
    requires Value(n) in s.joins && s.joins[Value(n)] == Finding(Value(m))
    requires Value(m) in s.succ && s.succ[Value(m)] == Value(q) && AnswerJoin(s, Value(n), t)
    ensures Value(n) in t.joins
    ensures
      if KeyInBetweenRightInclusive(m, q, n) then t.joins[Value(n)] == Found(Value(q))
      else t.joins[Value(n)].Finding? && Between(Value(m), Value(n), t.joins[Value(n)].at)
  {
    hide Value, KeyInBetweenRightInclusive, Between;
    BetweenOnCircle(m, q, n);
  }

  /** Node n becomes a member; its stabilize loop, already running, may be in the middle of a round with itself. */
  function Entered(s: State, n: int, z: Stabilizer): State
    requires n in s.joins && s.joins[n].Found?
  {
    s.(members := s.members + {n}, succ := s.succ[n := s.joins[n].s], stab := s.stab[n := z],
       joins := s.joins - {n}, greets := s.greets[n := Ready])
  }

  ghost predicate Enter(s: State, n: int, t: State) {
    && n in s.joins && s.joins[n].Found?
    && exists z :: (z == Idle || z == Asked(n) || z == Telling(n)) && t == Entered(s, n, z)
  }

  ghost predicate JoinStep(s: State, n: int, t: State) {
    AskToJoin(s, n, t) || AnswerJoin(s, n, t) || Enter(s, n, t)
  }

  /**
   * The new member tells the node it found about itself. If that node refuses, the source ends the new
   * process; such a run has a failure. Here the new member goes on, which only allows more runs.
   */
  ghost predicate GreetStep(s: State, n: int, t: State) {
    && n in s.greets && n in s.succ
    && match s.greets[n]
       case Ready => t == s.(greets := s.greets[n := Greet(s.succ[n])])
       case Greet(q) => t == s.(pred := Notify(s.pred, q, n), greets := s.greets - {n})
  }

  ghost predicate StabilizeStep(s: State, n: int, t: State) {
    && n in s.stab && n in s.succ
    && match s.stab[n]
       case Idle => t == s.(stab := s.stab[n := Asked(s.succ[n])])
       case Asked(q) => t == s.(stab := s.stab[n := if q in s.pred then Got(q, s.pred[q]) else Telling(q)])
       case Got(q, p) =>
         t == if Adopts(n, q, s.succ[n], p) then s.(succ := s.succ[n := p], stab := s.stab[n := Telling(p)])
              else s.(stab := s.stab[n := Telling(q)])
       case Telling(q) => t == s.(pred := Notify(s.pred, q, n), stab := s.stab[n := Idle])
  }

  ghost predicate Next(s: State, t: State) {
    exists n :: JoinStep(s, n, t) || GreetStep(s, n, t) || StabilizeStep(s, n, t)
  }

  ghost predicate Run(c: int, run: seq<State>) {
    && run != [] && run[0] == Create(c)
    && forall i | 0 <= i < |run| - 1 :: Next(run[i], run[i + 1])
  }

  // ----- edges, ranks and arcs

  /** How far x is clockwise from the creator. */
  function Rank(c: int, x: int): nat { Distance(c, x) }

  /** Going from a to b does not jump over the creator. */
  ghost predicate EdgeOk(c: int, a: int, b: int) {
    OnCircle(a) && OnCircle(b) && !Between(a, b, c)
  }

  lemma EdgeRank(c: int, a: int, b: int)
    requires OnCircle(a) && OnCircle(b) && OnCircle(c)
    ensures EdgeOk(c, a, b) <==> b == c || Rank(c, a) < Rank(c, b)
  {
    hide Distance;
    DistanceIs(a, b);
    DistanceIs(a, c);
    DistanceIs(c, a);
    DistanceIs(c, b);
  }

  lemma InsideEdge(c: int, a: int, b: int, x: int)
    requires OnCircle(c) && OnCircle(x) && EdgeOk(c, a, b)
    ensures Between(a, b, x) <==> Rank(c, a) < Rank(c, x) && (b == c || Rank(c, x) < Rank(c, b))
  {
    hide Distance;
    DistanceIs(a, b);
    DistanceIs(a, c);
    DistanceIs(a, x);
    DistanceIs(c, a);
    DistanceIs(c, b);
    DistanceIs(c, x);
  }

  /** Both parts of an edge that does not jump over the creator do not, either. */
  lemma SplitEdge(c: int, a: int, b: int, x: int)
    requires OnCircle(c) && OnCircle(x) && EdgeOk(c, a, b) && Between(a, b, x)
    ensures EdgeOk(c, a, x) && EdgeOk(c, x, b) && x != a && x != b
  {
    hide Distance, EdgeOk;
    OnEdge(c, a, b);
    InsideEdge(c, a, b, x);
    EdgeRank(c, a, x);
    EdgeRank(c, x, b);
    NotEnd(a, b, x);
  }

  lemma OnEdge(c: int, a: int, b: int)
    requires EdgeOk(c, a, b)
    ensures OnCircle(a) && OnCircle(b)
  {
  }

  lemma NotEnd(a: int, b: int, x: int)
    requires OnCircle(a) && OnCircle(b) && OnCircle(x) && Between(a, b, x)
    ensures x != a && x != b
  {
  }

  ghost predicate Closed(succ: map<int, int>) {
    (forall n | n in succ :: OnCircle(n)) && forall n {:trigger succ[n]} | n in succ :: succ[n] in succ
  }

  /** The chain of successors from p reaches s without leaving the clockwise arc from p to s. */
  ghost predicate Arc(succ: map<int, int>, p: int, s: int)
    requires Closed(succ)
    decreases Distance(p, s)
  {
    p == s ||
    (&& p in succ && 0 < Distance(p, succ[p]) <= Distance(p, s) && Distance(succ[p], s) < Distance(p, s)
     && Arc(succ, succ[p], s))
  }

  /** The node k successors after n. */
  function Hops(succ: map<int, int>, n: int, k: nat): int
    requires Closed(succ) && n in succ
    decreases k
  {
    if k == 0 then n else Hops(succ, succ[n], k - 1)
  }

  /** An arc in terms of hops: k of them lead from p to s, and none passes s. */
  lemma {:induction false} ArcIsChain(succ: map<int, int>, p: int, s: int) returns (k: nat)
    requires Closed(succ) && p in succ && s in succ && Arc(succ, p, s)
    ensures Hops(succ, p, k) == s
    ensures forall i: nat | i <= k :: OnCircle(Hops(succ, p, i)) && Distance(p, Hops(succ, p, i)) <= Distance(p, s)
    decreases Distance(p, s)
  {
    hide Distance, Between;
    if p == s {
      k := 0;
    } else {
      var q := succ[p];
      var j := ArcIsChain(succ, q, s);
      k := j + 1;
      forall i: nat | i <= k ensures OnCircle(Hops(succ, p, i)) && Distance(p, Hops(succ, p, i)) <= Distance(p, s) {
        if i > 0 {
          assert Hops(succ, p, i) == Hops(succ, q, i - 1);
          DistanceSum(p, q, s, Hops(succ, q, i - 1));
        } else {
          SelfBetween(p, p);
        }
      }
    }
  }

  lemma DistanceSum(p: int, q: int, s: int, h: int)
    requires OnCircle(p) && OnCircle(q) && OnCircle(s) && OnCircle(h)
    requires Distance(p, q) <= Distance(p, s) && Distance(q, h) <= Distance(q, s)
    ensures Distance(p, h) <= Distance(p, s)
  {
    hide Distance;
    DistanceIs(p, q);
    DistanceIs(p, s);
    DistanceIs(q, h);
    DistanceIs(q, s);
    DistanceIs(p, h);
  }

  lemma ArcStep(succ: map<int, int>, p: int, s: int)
    requires Closed(succ) && p in succ && OnCircle(s) && p != s && (Between(p, s, succ[p]) || succ[p] == s) &&
        Arc(succ, succ[p], s)
    ensures Arc(succ, p, s)
  {
    hide Distance;
    DistanceIs(p, s);
    DistanceIs(p, succ[p]);
    DistanceIs(succ[p], s);
  }

  lemma ArcParts(succ: map<int, int>, p: int, s: int)
    requires Closed(succ) && OnCircle(p) && OnCircle(s) && Arc(succ, p, s) && p != s
    ensures p in succ && (Between(p, s, succ[p]) || succ[p] == s) && Arc(succ, succ[p], s) &&
        Distance(succ[p], s) < Distance(p, s)
  {
    hide Distance;
    DistanceIs(p, s);
    DistanceIs(p, succ[p]);
  }

  lemma BetweenChain(a: int, b: int, c: int, d: int)
    requires OnCircle(a) && OnCircle(b) && OnCircle(c) && OnCircle(d)
    ensures Between(a, d, c) && Between(a, c, b) ==> Between(a, d, b) && Between(b, d, c)
    ensures Between(a, d, b) && Between(b, d, c) ==> Between(a, d, c)
  {
    hide Distance;
    DistanceIs(a, b);
    DistanceIs(a, c);
    DistanceIs(a, d);
    DistanceIs(b, c);
    DistanceIs(b, d);
  }

  lemma SelfBetween(a: int, b: int)
    requires OnCircle(a) && OnCircle(b)
    ensures Between(a, a, b) <==> a != b
    ensures !Between(a, b, a) && !Between(a, b, b)
    ensures Distance(a, b) == 0 <==> a == b
  {
  }

  /** Of three points, the second is between the first and the third unless the first is between the others. */
  lemma EitherIsCloser(n: int, p: int, q: int)
    requires OnCircle(n) && OnCircle(p) && OnCircle(q) && n != p && p != q && n != q
    ensures Between(n, q, p) <==> !Between(p, q, n)
  {
    hide Distance;
    DistanceIs(n, p);
    DistanceIs(n, q);
    DistanceIs(p, q);
    DistanceIs(p, n);
  }

  /** Arcs compose when the middle lies on the longer one. */
  lemma {:induction false} ArcTransitive(succ: map<int, int>, p: int, m: int, s: int)
    requires Closed(succ) && OnCircle(p) && OnCircle(m) && OnCircle(s) && Arc(succ, p, m) && Arc(succ, m, s)
    requires m == p || m == s || Between(p, s, m)
    ensures Arc(succ, p, s)
    decreases Distance(p, m)
  {
    hide Distance, Between;
    if p != m && m != s && p != s {
      var q := succ[p];
      ArcParts(succ, p, m);
      assert OnCircle(q);
      BetweenChain(p, q, m, s);
      ArcTransitive(succ, q, m, s);
      ArcStep(succ, p, s);
    }
  }

  /** Adopting a closer successor z, whose own chain reaches the old one, breaks no arc. */
  lemma {:induction false} ArcAfterAdopt(succ: map<int, int>, x: int, z: int, p: int, s: int)
    requires Closed(succ) && x in succ && z in succ && Between(x, succ[x], z) && Arc(succ, z, succ[x])
    requires OnCircle(p) && OnCircle(s) && Arc(succ, p, s)
    ensures Closed(succ[x := z]) && Arc(succ[x := z], p, s)
    decreases Distance(p, s)
  {
    hide Distance, Between;
    var moved := succ[x := z];
    assert OnCircle(z) && OnCircle(x);
    if p != s {
      var q := succ[p];
      ArcParts(succ, p, s);
      assert OnCircle(q);
      if p != x {
        ArcAfterAdopt(succ, x, z, q, s);
        ArcStep(moved, p, s);
      } else {
        SelfBetween(x, s);
        SelfBetween(x, q);
        SelfBetween(z, q);
        BetweenChain(x, z, q, s);
        ArcTransitive(succ, z, q, s);
        CloserOnArc(x, s, z);
        ArcAfterAdopt(succ, x, z, z, s);
        ArcStep(moved, p, s);
      }
    }
  }

  lemma CloserOnArc(p: int, s: int, z: int)
    requires OnCircle(p) && OnCircle(s) && OnCircle(z) && p != s && Between(p, s, z)
    ensures Distance(z, s) < Distance(p, s)
  {
    hide Distance;
    DistanceIs(p, s);
    DistanceIs(z, s);
    DistanceIs(p, z);
  }

  /** A new member breaks no arc. */
  lemma {:induction false} ArcAfterEnter(succ: map<int, int>, n: int, t: int, p: int, s: int)
    requires Closed(succ) && n !in succ && t in succ && OnCircle(n) && OnCircle(p) && OnCircle(s) && Arc(succ, p, s)
    requires p in succ
    ensures Closed(succ[n := t]) && Arc(succ[n := t], p, s)
    decreases Distance(p, s)
  {
    hide Distance, Between;
    if p != s {
      ArcParts(succ, p, s);
      assert OnCircle(succ[p]);
      ArcAfterEnter(succ, n, t, succ[p], s);
      ArcStep(succ[n := t], p, s);
    }
  }

  /** A chain of edges none of which jumps over the creator reaches it. */
  lemma {:induction false} ArcToCreator(succ: map<int, int>, c: int, n: int)
    requires Closed(succ) && OnCircle(c) && n in succ && forall x | x in succ :: EdgeOk(c, x, succ[x])
    ensures Arc(succ, n, c)
    decreases Distance(n, c)
  {
    hide Distance, Between;
    if n != c {
      var q := succ[n];
      assert EdgeOk(c, n, q);
      TowardsCreator(c, n, q);
      ArcToCreator(succ, c, q);
      ArcStep(succ, n, c);
    }
  }

  lemma TowardsCreator(c: int, n: int, q: int)
    requires OnCircle(c) && EdgeOk(c, n, q) && n != c
    ensures (Between(n, c, q) || q == c) && Distance(q, c) < Distance(n, c)
  {
    hide Distance;
    DistanceIs(n, q);
    DistanceIs(n, c);
    DistanceIs(q, c);
  }
}
