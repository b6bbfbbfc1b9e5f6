/**
 * Two measures of how far a ring is from the ideal one: the sum of the clockwise gaps, and the number of members
 * inside them. Whatever moves a successor or a predecessor, without a new member, makes both smaller.
 */
module ChordGaps {
  import opened FiniteSets
  import opened Keys
  import opened ChordProtocol
  import opened ChordInvariant

  // ----- sums over all points of the circle

  ghost function SumBelow(w: int -> nat, k: nat): nat {
    if k == 0 then 0 else SumBelow(w, k - 1) + w(k - 1)
  }

  lemma {:induction false} OneSmaller(w: int -> nat, v: int -> nat, x: int, k: nat)
    requires (forall y | y != x :: v(y) == w(y)) && v(x) < w(x)
    ensures if 0 <= x < k then SumBelow(v, k) < SumBelow(w, k) else SumBelow(v, k) == SumBelow(w, k)
    decreases k
  {
    if k > 0 { OneSmaller(w, v, x, k - 1); }
  }

  /** With at most b at each member, and nothing elsewhere. */
  lemma {:induction false} SumAtMost(w: int -> nat, members: set<int>, b: nat, k: nat)
    requires forall x :: w(x) <= if x in members then b else 0
    ensures SumBelow(w, k) <= b * |set x | x in members && 0 <= x < k|
    decreases k
  {
    var now := set x | x in members && 0 <= x < k;
    if k > 0 {
      var before := set x | x in members && 0 <= x < k - 1;
      SumAtMost(w, members, b, k - 1);
      if k - 1 in members {
        assert now == before + {k - 1};
        OneMoreTimes(b, |before|);
      } else {
        assert now == before;
      }
    }
  }

  lemma OneMoreTimes(b: nat, c: nat)
    ensures b * (c + 1) == b * c + b
  {
  }

  // ----- the sum of the gaps

  /** From a node around the whole circle to itself, or clockwise to another. */
  function Gap(a: int, b: int): nat { if a == b then CIRCLE else Distance(a, b) }

  /** The gap from x to its successor, and the one to it from its predecessor. */
  function GapsAt(s: State): int -> nat {
    x => if x !in s.succ then 0 else Gap(x, s.succ[x]) + if x in s.pred then Gap(s.pred[x], x) else CIRCLE
  }

  ghost function Gaps(s: State): nat { SumBelow(GapsAt(s), CIRCLE) }

  // ----- the number of members inside them

  ghost function Inside(members: set<int>, a: int, b: int): set<int> {
    set x | x in members && Between(a, b, x)
  }

  ghost function InsidersAt(s: State): int -> nat {
    x => if x !in s.succ then 0
         else |Inside(s.members, x, s.succ[x])| + if x in s.pred then |Inside(s.members, s.pred[x], x)| else |s.members|
  }

  ghost function Insiders(s: State): nat { SumBelow(InsidersAt(s), CIRCLE) }

  // ----- a member inside a gap makes it smaller

  lemma CloserGap(n: int, q: int, p: int)
    requires OnCircle(n) && OnCircle(q) && OnCircle(p) && Between(n, q, p)
    ensures Gap(n, p) < Gap(n, q)
    ensures n != q ==> Gap(p, q) < Gap(n, q)
  {
    SelfBetween(n, p);
    if n != q { CloserOnArc(n, q, p); NotEnd(n, q, p); }
  }

  lemma ShortGap(a: int, b: int)
    requires a != b
    ensures Gap(a, b) < CIRCLE
  {
  }

  ghost predicate AllOnCircle(members: set<int>) { forall x | x in members :: OnCircle(x) }

  lemma FewerInside(members: set<int>, n: int, q: int, p: int)
    requires AllOnCircle(members) && OnCircle(n) && OnCircle(q) && p in members && Between(n, q, p)
    ensures |Inside(members, n, p)| < |Inside(members, n, q)| && |Inside(members, p, q)| < |Inside(members, n, q)|
  {
    hide Between;
    var all := Inside(members, n, q);
    NotEnd(n, q, p);
    SelfBetween(n, p);
    SelfBetween(p, q);
    forall x | x in Inside(members, n, p) ensures x in all - {p} { BetweenChain(n, x, p, q); }
    forall x | x in Inside(members, p, q) ensures x in all - {p} { BetweenChain(n, p, x, q); }
    SubsetSize(Inside(members, n, p), all - {p});
    SubsetSize(Inside(members, p, q), all - {p});
  }

  lemma NotAllInside(members: set<int>, n: int, q: int)
    requires AllOnCircle(members) && n in members && OnCircle(q)
    ensures |Inside(members, n, q)| < |members|
  {
    hide Between;
    SelfBetween(n, q);
    SubsetSize(Inside(members, n, q), members - {n});
  }

  // ----- steps

  /** Both measures are smaller in t than in s. */
  ghost predicate Smaller(s: State, t: State) {
    Gaps(t) < Gaps(s) && Insiders(t) < Insiders(s)
  }

  lemma MembersOnCircle(c: int, s: State)
    requires Inv(c, s)
    ensures AllOnCircle(s.members) && s.succ.Keys == s.members
  {
    hide PredsOk, StabsOk, GreetsOk, JoinsOk;
  }

  lemma AtMostTwice(s: State, x: int)
    requires s.succ.Keys == s.members
    ensures InsidersAt(s)(x) <= if x in s.members then 2 * |s.members| else 0
  {
    hide Between;
    if x in s.members {
      SubsetSize(Inside(s.members, x, s.succ[x]), s.members);
      if x in s.pred { SubsetSize(Inside(s.members, s.pred[x], x), s.members); }
    }
  }

  lemma InsidersBounded(c: int, s: State)
    requires Inv(c, s)
    ensures Insiders(s) <= 2 * |s.members| * |s.members|
  {
    hide Inv, InsidersAt, SumBelow;
    MembersOnCircle(c, s);
    forall x ensures InsidersAt(s)(x) <= if x in s.members then 2 * |s.members| else 0 { AtMostTwice(s, x); }
    SumAtMost(InsidersAt(s), s.members, 2 * |s.members|, CIRCLE);
    assert (set x | x in s.members && 0 <= x < CIRCLE) == s.members;
  }

  lemma AdoptShrinksGaps(s: State, n: int, p: int, t: State)
    requires Closed(s.succ) && n in s.succ && OnCircle(p) && Between(n, s.succ[n], p)
    requires t.pred == s.pred && t.succ == s.succ[n := p]
    ensures Gaps(t) < Gaps(s)
  {
    hide Between, Gap, SumBelow;
    CloserGap(n, s.succ[n], p);
    OneSmaller(GapsAt(s), GapsAt(t), n, CIRCLE);
  }

  lemma AdoptShrinksInsiders(s: State, n: int, p: int, t: State)
    requires Closed(s.succ) && n in s.succ && Between(n, s.succ[n], p) && AllOnCircle(s.members) && p in s.members
    requires t.pred == s.pred && t.succ == s.succ[n := p] && t.members == s.members
    ensures Insiders(t) < Insiders(s)
  {
    hide Between, SumBelow, Inside;
    FewerInside(s.members, n, s.succ[n], p);
    OneSmaller(InsidersAt(s), InsidersAt(t), n, CIRCLE);
  }

  lemma AdoptShrinks(c: int, s: State, n: int, p: int, stab: map<int, Stabilizer>)
    requires Inv(c, s) && n in s.succ && p in s.succ && Between(n, s.succ[n], p)
    ensures Smaller(s, s.(succ := s.succ[n := p], stab := stab))
  {
    hide Between, Inv, Gaps, Insiders, EdgesOk;
    var t := s.(succ := s.succ[n := p], stab := stab);
    MembersOnCircle(c, s);
    InvParts(c, s, n);
    AdoptShrinksGaps(s, n, p, t);
    AdoptShrinksInsiders(s, n, p, t);
  }

  lemma NotifyShrinks(c: int, s: State, q: int, n: int, t: State)
    requires Inv(c, s) && (q == n || Reaches(c, s.succ, n, q))
    requires t.members == s.members && t.succ == s.succ && t.pred == Notify(s.pred, q, n)
    ensures t.pred == s.pred || Smaller(s, t)
  {
    hide Between, Gap, SumBelow, Inv, Arc, EdgesOk, StabOk, GreetOk, JoinOk, Inside;
    if t.pred != s.pred {
      MembersOnCircle(c, s);
      InvParts(c, s, q);
      if q in s.pred {
        CloserGap(s.pred[q], q, n);
        FewerInside(s.members, s.pred[q], q, n);
      } else {
        ShortGap(n, q);
        NotAllInside(s.members, n, q);
      }
      OneSmaller(GapsAt(s), GapsAt(t), q, CIRCLE);
      OneSmaller(InsidersAt(s), InsidersAt(t), q, CIRCLE);
    }
  }

  lemma EnterAdds(c: int, s: State, n: int, t: State)
    requires Inv(c, s) && Enter(s, n, t)
    ensures n in t.members && n !in s.members
  {
    hide EdgesOk, PredsOk, StabsOk, GreetsOk;
    JoinersOutside(c, s);
  }

  lemma JoinMovesNothing(c: int, s: State, n: int, t: State)
    requires Inv(c, s) && JoinStep(s, n, t) && t.members == s.members
    ensures t.succ == s.succ && t.pred == s.pred
  {
    hide Inv, Between, Enter;
    if Enter(s, n, t) { EnterAdds(c, s, n, t); }
  }

  lemma GreetShrinks(c: int, s: State, n: int, t: State)
    requires Inv(c, s) && GreetStep(s, n, t)
    ensures (t.succ == s.succ && t.pred == s.pred) || Smaller(s, t)
  {
    hide Inv, Reaches, PredOk, StabOk, JoinOk, EdgesOk, Notify, Smaller;
    InvParts(c, s, n);
    match s.greets[n]
    case Ready =>
    case Greet(q) => NotifyShrinks(c, s, q, n, t);
  }

  lemma StabilizeShrinks(c: int, s: State, n: int, t: State)
    requires Inv(c, s) && StabilizeStep(s, n, t)
    ensures (t.succ == s.succ && t.pred == s.pred) || Smaller(s, t)
  {
    hide Inv, Arc, PredOk, GreetOk, JoinOk, EdgesOk, Notify, Between, Smaller;
    InvParts(c, s, n);
    match s.stab[n]
    case Idle =>
    case Asked(q) =>
    case Got(q, p) =>
      if Adopts(n, q, s.succ[n], p) { AdoptShrinks(c, s, n, p, t.stab); }
    case Telling(q) => NotifyShrinks(c, s, q, n, t);
  }

  /** Whatever moves a successor or a predecessor, without a new member, makes both measures smaller. */
  lemma ChangeShrinks(c: int, s: State, t: State)
    requires Inv(c, s) && Next(s, t) && t.members == s.members
    ensures (t.succ == s.succ && t.pred == s.pred) || (Gaps(t) < Gaps(s) && Insiders(t) < Insiders(s))
  {
    hide Inv, JoinStep, GreetStep, StabilizeStep;
    var n :| JoinStep(s, n, t) || GreetStep(s, n, t) || StabilizeStep(s, n, t);
    if JoinStep(s, n, t) {
      JoinMovesNothing(c, s, n, t);
    } else if GreetStep(s, n, t) {
      GreetShrinks(c, s, n, t);
    } else {
      StabilizeShrinks(c, s, n, t);
    }
  }

  lemma SameMeasures(s: State, t: State)
    requires t.members == s.members && t.succ == s.succ && t.pred == s.pred
    ensures Gaps(t) == Gaps(s) && Insiders(t) == Insiders(s)
  {
    hide Between;
    SameSums(GapsAt(s), GapsAt(t), CIRCLE);
    SameSums(InsidersAt(s), InsidersAt(t), CIRCLE);
  }

  lemma {:induction false} SameSums(w: int -> nat, v: int -> nat, k: nat)
    requires forall x :: v(x) == w(x)
    ensures SumBelow(v, k) == SumBelow(w, k)
    decreases k
  {
    if k > 0 { SameSums(w, v, k - 1); }
  }
}
