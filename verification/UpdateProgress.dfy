/** Unless all nodes wait for each other, the updates under way can end, and further ones make all lists right. */
module UpdateProgress {
  import opened Keys
  import Protocol = ChordProtocol
  import opened ChordNode
  import opened SuccessorLists
  import opened UpdateRounds

  ghost predicate Leads(t: Tables, run: seq<Tables>, acts: seq<Act>, u: Tables) {
    Run(run, acts) && run[0] == t && run[|run| - 1] == u
  }

  lemma OneAct(t: Tables, a: Act, u: Tables)
    requires Step(t, a, u)
    ensures Leads(t, [t, u], [a], u)
  {
    hide Step;
  }

  lemma LeadsOn(t: Tables, run: seq<Tables>, acts: seq<Act>, u: Tables, more: seq<Tables>, rest: seq<Act>, v: Tables)
    requires Leads(t, run, acts, u) && Leads(u, more, rest, v)
    ensures Leads(t, run + more[1..], acts + rest, v)
  {
    hide Step;
    var all, both := run + more[1..], acts + rest;
    forall x | 0 <= x < |both| ensures Step(all[x], both[x], all[x + 1]) {
      if x < |acts| {
        assert Step(run[x], acts[x], run[x + 1]);
      } else {
        assert Step(more[x - |acts|], rest[x - |acts|], more[x - |acts| + 1]);
        assert all[x] == more[x - |acts|] && all[x + 1] == more[x - |acts| + 1];
      }
    }
  }

  lemma LevelStays(members: set<int>, r: nat, t: Tables, run: seq<Tables>, acts: seq<Act>, u: Tables, k: nat)
    requires Leads(t, run, acts, u) && Level(members, r, t, k)
    ensures Level(members, r, u, k)
  {
    hide Step, Level;
    DuringRound(members, r, run, acts, 0, |acts|, k);
  }

  // ----- ending what is under way

  ghost function Waits(t: Tables): set<int> { set n | n in t.phases && t.phases[n] == Waiting }

  ghost function Holds(t: Tables): set<int> { set n | n in t.phases && t.phases[n].Holding? }

  ghost function ToEnd(t: Tables): nat { 2 * |Waits(t)| + |Holds(t)| }

  /** The node of a set that is nearest before m. */
  lemma {:induction false} Nearest(nodes: set<int>, m: int, some: int) returns (n: int)
    requires some in nodes
    ensures n in nodes && forall x | x in nodes :: Distance(n, m) <= Distance(x, m)
    decreases |nodes|
  {
    hide Distance;
    n := some;
    var rest := nodes - {n};
    assert forall y | y in nodes :: y == some || y in rest;
    if x :| x in rest {
      var y := Nearest(rest, m, x);
      if Distance(y, m) < Distance(n, m) { n := y; }
    }
  }

  /** Of the nodes before m, the nearest has a successor that is none of them. */
  lemma NextIsNearer(members: set<int>, n: int, s: int, m: int)
    requires Protocol.OnCircle(n) && Protocol.OnCircle(s) && Protocol.OnCircle(m) && m in members && n != m &&
        IsNext(members, n, s)
    ensures Distance(s, m) < Distance(n, m)
  {
    hide Distance;
    DistanceIs(n, s);
    DistanceIs(n, m);
    DistanceIs(s, m);
  }

  /** Next to some node that waits there is one that does not. */
  lemma EdgeOfWaiting(members: set<int>, r: nat, t: Tables, m: int, some: int) returns (n: int)
    requires Shaped(members, r, t) && m in members && t.phases[m] != Waiting && some in Waits(t)
    ensures n in Waits(t) && n in t.lists && t.lists[n] != [] && t.lists[n][0] in t.phases && t.lists[n][0] !in Waits(t)
  {
    hide IsNext, Distance;
    n := Nearest(Waits(t), m, some);
    var s := t.lists[n][0];
    NextIsMember(members, n, s);
    NextIsNearer(members, n, s, m);
  }

  lemma NextIsMember(members: set<int>, n: int, s: int)
    requires IsNext(members, n, s)
    ensures s in members
  {
  }

  /** A step that takes an update further, after which somebody does not wait. */
  ghost predicate Further(members: set<int>, t: Tables, a: Act, u: Tables) {
    Step(t, a, u) && ToEnd(u) < ToEnd(t) && !Deadlocked(u)
  }

  lemma WriteFurther(members: set<int>, r: nat, t: Tables, n: int) returns (u: Tables)
    requires Level(members, r, t, 1) && n in Holds(t)
    ensures Further(members, t, Write(n), u)
  {
    hide Shifted, InOrder, Ring;
    assert NodeOk(members, r, t, n, 1, 0);
    RingSizes(members, r, t, n);
    u := Tables(t.lists[n := Shifted(t.lists[n], t.phases[n].list)], t.phases[n := Out]);
    assert Waits(u) == Waits(t) && Holds(u) == Holds(t) - {n};
    assert u.phases[n] == Out && n in u.lists;
  }

  lemma RingSizes(members: set<int>, r: nat, t: Tables, n: int)
    requires Ring(members, r, t.lists) && n in members
    ensures n in t.lists && |t.lists[n]| == r > 0
  {
    hide IsNext;
  }

  lemma ReadFurther(members: set<int>, r: nat, t: Tables, n: int) returns (u: Tables)
    requires Shaped(members, r, t) && n in Waits(t) && n in t.lists && t.lists[n] != []
    requires t.lists[n][0] == n || (t.lists[n][0] in t.phases && t.phases[t.lists[n][0]] == Out)
    ensures Further(members, t, Read(n), u)
  {
    hide IsNext;
    u := t.(phases := t.phases[n := Holding(t.lists[t.lists[n][0]])]);
    assert Waits(u) == Waits(t) - {n} && Holds(u) == Holds(t) + {n};
    assert u.phases[n].Holding? && n in u.lists;
  }

  lemma GoFurther(members: set<int>, r: nat, t: Tables) returns (a: Act, u: Tables)
    requires Level(members, r, t, 1) && !Deadlocked(t) && !AllOut(t)
    ensures Further(members, t, a, u)
  {
    hide Step, Ring, NodeOk, Further;
    LevelBounds(members, r, t, 1);
    if n :| n in Holds(t) {
      u := WriteFurther(members, r, t, n);
      a := Write(n);
    } else {
      var m :| m in t.lists && !(m in t.phases && t.phases[m] == Waiting && t.lists[m] != [] && t.lists[m][0] != m);
      LevelKeys(members, r, t);
      RingSizes(members, r, t, m);
      var x :| x in t.phases && t.phases[x] != Out;
      assert x !in Holds(t);
      assert x in Waits(t);
      var n := m;
      if t.phases[m] != Waiting { n := EdgeOfWaiting(members, r, t, m, x); }
      OutIfNeither(t, t.lists[n][0]);
      u := ReadFurther(members, r, t, n);
      a := Read(n);
    }
  }

  lemma LevelKeys(members: set<int>, r: nat, t: Tables)
    requires Shaped(members, r, t)
    ensures t.lists.Keys == members == t.phases.Keys
  {
  }

  lemma OutIfNeither(t: Tables, n: int)
    requires Holds(t) == {}
    ensures n in t.phases && n !in Waits(t) ==> t.phases[n] == Out
  {
    if n in t.phases && n !in Waits(t) { assert n !in Holds(t); }
  }

  /** All updates under way can end. */
  lemma {:induction false} CanSettle(members: set<int>, r: nat, t: Tables)
    returns (run: seq<Tables>, acts: seq<Act>, u: Tables)
    requires Level(members, r, t, 1) && !Deadlocked(t)
    ensures Leads(t, run, acts, u) && AllOut(u)
    decreases ToEnd(t)
  {
    hide Level, AllOut, Deadlocked, Step, ToEnd;
    if AllOut(t) {
      run, acts, u := [t], [], t;
    } else {
      var a, v := GoFurther(members, r, t);
      OneAct(t, a, v);
      LevelStays(members, r, t, [t, v], [a], v, 1);
      var more, rest;
      more, rest, u := CanSettle(members, r, v);
      LeadsOn(t, [t, v], [a], v, more, rest, u);
      run, acts := [t, v] + more[1..], [a] + rest;
    }
  }

  // ----- a round, one node after the other

  lemma UpdateAlone(members: set<int>, r: nat, t: Tables, n: int)
    returns (run: seq<Tables>, acts: seq<Act>, u: Tables)
    requires Shaped(members, r, t) && AllOut(t) && n in members
    ensures Leads(t, run, acts, u) && AllOut(u) && acts == [Begin(n), Read(n), Write(n)]
  {
    hide IsNext, Shifted;
    var s := t.lists[n][0];
    NextIsMember(members, n, s);
    var v := t.(phases := t.phases[n := Waiting]);
    var w := v.(phases := v.phases[n := Holding(v.lists[s])]);
    u := Tables(w.lists[n := Shifted(w.lists[n], w.lists[s])], w.phases[n := Out]);
    assert Step(t, Begin(n), v) && Step(v, Read(n), w) && Step(w, Write(n), u);
    run, acts := [t, v, w, u], [Begin(n), Read(n), Write(n)];
  }

  lemma {:induction false} CanRound(members: set<int>, r: nat, t: Tables, left: set<int>)
    returns (run: seq<Tables>, acts: seq<Act>, u: Tables)
    requires Shaped(members, r, t) && AllOut(t) && left <= members
    ensures Leads(t, run, acts, u) && Shaped(members, r, u) && AllOut(u)
    ensures forall n | n in left :: Updates(acts, 0, |acts|, n)
    decreases |left|
  {
    hide Shaped, AllOut, Step, Updates;
    if n :| n in left {
      var first, three, v := UpdateAlone(members, r, t, n);
      ShapeStays(members, r, t, first, three, v);
      var more, rest;
      more, rest, u := CanRound(members, r, v, left - {n});
      LeadsOn(t, first, three, v, more, rest, u);
      run, acts := first + more[1..], three + rest;
      UpdatesFirst(n, rest);
      forall m | m in left && m != n ensures Updates(acts, 0, |acts|, m) { UpdatesLater(three, rest, m); }
    } else {
      run, acts, u := [t], [], t;
    }
  }

  lemma {:induction false} ShapeStays(
        members: set<int>, r: nat, t: Tables, run: seq<Tables>, acts: seq<Act>, u: Tables)
    requires Leads(t, run, acts, u) && Shaped(members, r, t)
    ensures Shaped(members, r, u)
    decreases |acts|
  {
    hide Shaped, Step;
    if acts != [] {
      assert Step(run[0], acts[0], run[0 + 1]);
      StepKeepsShape(members, r, run[0], acts[0], run[1]);
      forall x | 0 <= x < |acts[1..]| ensures Step(run[1..][x], acts[1..][x], run[1..][x + 1]) {
        assert Step(run[x + 1], acts[x + 1], run[x + 1 + 1]);
      }
      ShapeStays(members, r, run[1], run[1..], acts[1..], u);
    }
  }

  lemma UpdatesFirst(n: int, rest: seq<Act>)
    ensures var acts := [Begin(n), Read(n), Write(n)] + rest; Updates(acts, 0, |acts|, n)
  {
    var acts := [Begin(n), Read(n), Write(n)] + rest;
    assert acts[1] == Read(n) && acts[2] == Write(n);
  }

  lemma UpdatesLater(first: seq<Act>, rest: seq<Act>, n: int)
    requires Updates(rest, 0, |rest|, n)
    ensures Updates(first + rest, 0, |first + rest|, n)
  {
    var a: nat, b: nat :| 0 <= a < b < |rest| && rest[a] == Read(n) && rest[b] == Write(n);
    var acts := first + rest;
    assert acts[|first| + a] == Read(n) && acts[|first| + b] == Write(n);
  }

  // ----- until all is right

  /** No update is under way, and every list names the next r members in order. */
  ghost predicate AllRight(members: set<int>, r: nat, t: Tables) {
    AllOut(t) && Shaped(members, r, t) && forall n | n in members :: InOrder(members, n, t.lists[n], r)
  }

  lemma {:induction false} CanFillFrom(members: set<int>, r: nat, t: Tables, k: nat)
    returns (run: seq<Tables>, acts: seq<Act>, u: Tables)
    requires AllOut(t) && Level(members, r, t, k)
    ensures Leads(t, run, acts, u) && AllRight(members, r, u)
    decreases r - k
  {
    hide Level, AllOut, Step, Shaped, Updates;
    LevelBounds(members, r, t, k);
    if k == r {
      run, acts, u := [t], [], t;
      FullLevel(members, r, t);
    } else {
      var v;
      run, acts, v := CanRound(members, r, t, members);
      assert Round(members, acts, 0, |acts|);
      OneRound(members, r, run, acts, 0, |acts|, k);
      var more, rest;
      more, rest, u := CanFillFrom(members, r, v, k + 1);
      LeadsOn(t, run, acts, v, more, rest, u);
      run, acts := run + more[1..], acts + rest;
    }
  }

  lemma FullLevel(members: set<int>, r: nat, t: Tables)
    requires AllOut(t) && Level(members, r, t, r)
    ensures AllRight(members, r, t)
  {
    hide InOrder, Ring;
    forall n | n in members ensures InOrder(members, n, t.lists[n], r) {
      assert NodeOk(members, r, t, n, r, r - 1);
    }
  }

  ghost predicate CanBecomeRight(members: set<int>, r: nat, t: Tables) {
    exists run, acts, u :: Leads(t, run, acts, u) && AllRight(members, r, u)
  }

  lemma {:induction false} StaysDeadlocked(t: Tables, run: seq<Tables>, acts: seq<Act>, u: Tables)
    requires Leads(t, run, acts, u) && Deadlocked(t)
    ensures u == t
  {
    hide Step, Deadlocked;
    if acts != [] {
      assert Step(run[0], acts[0], run[0 + 1]);
      NobodyActs(t, acts[0], run[1]);
    }
  }

  /**
   * Wherever the nodes of an ideal ring are with their updates, the lists can all become right exactly if not all nodes
   * wait for each other.
   */
  lemma CanFillIff(members: set<int>, r: nat, was: seq<Tables>, done: seq<Act>, n: int)
    requires Run(was, done) && Shaped(members, r, was[0]) && AllOut(was[0]) && n in members
    ensures CanBecomeRight(members, r, was[|was| - 1]) <==> !Deadlocked(was[|was| - 1])
  {
    hide Level, Step, Shaped, AllOut, Deadlocked, CanBecomeRight;
    StartLevel(members, r, was[0]);
    DuringRound(members, r, was, done, 0, |done|, 1);
    FillIff(members, r, was[|was| - 1], n);
  }

  lemma FillIff(members: set<int>, r: nat, t: Tables, n: int)
    requires Level(members, r, t, 1) && n in members
    ensures CanBecomeRight(members, r, t) <==> !Deadlocked(t)
  {
    hide Level, Step, Shaped, AllOut, Deadlocked, InOrder, Leads;
    LevelBounds(members, r, t, 1);
    if Deadlocked(t) {
      forall run, acts, u | Leads(t, run, acts, u) ensures !AllRight(members, r, u) {
        StaysDeadlocked(t, run, acts, u);
        NotAllOut(members, r, t, n);
      }
    } else {
      var run, acts, u := CanSettle(members, r, t);
      LevelStays(members, r, t, run, acts, u, 1);
      var more, rest, v := CanFillFrom(members, r, u, 1);
      RightInTheEnd(members, r, t, run, acts, u, more, rest, v);
    }
  }

  lemma RightInTheEnd(
        members: set<int>, r: nat, t: Tables, run: seq<Tables>, acts: seq<Act>, u: Tables, more: seq<Tables>,
        rest: seq<Act>, v: Tables)
    requires Leads(t, run, acts, u) && Leads(u, more, rest, v) && AllRight(members, r, v)
    ensures CanBecomeRight(members, r, t)
  {
    hide Step, AllRight;
    LeadsOn(t, run, acts, u, more, rest, v);
  }

  lemma NotAllOut(members: set<int>, r: nat, t: Tables, n: int)
    requires Shaped(members, r, t) && n in members && Deadlocked(t)
    ensures !AllOut(t)
  {
    hide IsNext;
    assert n in t.lists;
  }
}
