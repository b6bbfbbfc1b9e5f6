/**
 * All nodes of an ideal ring updating their successor lists, in any interleaving. A node takes the lock of its list,
 * reads the list of its successor, for which that one's lock must be free, and then writes its own and gives the
 * lock back; in between the lists of others may change.
 */
module UpdateRounds {
  import opened Keys
  import opened ChordProtocol
  import opened ChordNode
  import opened SuccessorLists

  /** Waiting for the successor's answer, or having it; in both cases with the lock. */
  datatype Phase = Out | Waiting | Holding(list: seq<int>)

  datatype Tables = Tables(lists: map<int, seq<int>>, phases: map<int, Phase>)

  datatype Act = Begin(n: int) | Read(n: int) | Write(n: int)

  ghost predicate Step(t: Tables, a: Act, u: Tables) {
    var n := a.n;
    && n in t.lists && n in t.phases && t.lists[n] != []
    && match a
       case Begin(_) => t.phases[n] == Out && u == t.(phases := t.phases[n := Waiting])
       case Read(_) =>
         var s := t.lists[n][0];
         && t.phases[n] == Waiting && s in t.lists && s in t.phases && (s == n || t.phases[s] == Out)
         && u == t.(phases := t.phases[n := Holding(t.lists[s])])
       case Write(_) =>
         && t.phases[n].Holding? && 1 <= |t.phases[n].list| <= |t.lists[n]|
         && u == Tables(t.lists[n := Shifted(t.lists[n], t.phases[n].list)], t.phases[n := Out])
  }

  ghost predicate Run(run: seq<Tables>, acts: seq<Act>) {
    |run| == |acts| + 1 && forall x | 0 <= x < |acts| :: Step(run[x], acts[x], run[x + 1])
  }

  // ----- what is right at least

  /** One more, up to r. */
  function Up(k: nat, r: nat): nat { if k < r then k + 1 else r }

  ghost predicate PhaseOk(members: set<int>, r: nat, t: Tables, n: int, k: nat)
    requires n in t.lists && n in t.phases && t.lists[n] != []
  {
    t.phases[n].Holding? ==> |t.phases[n].list| == r && InOrder(members, t.lists[n][0], t.phases[n].list, k)
  }

  ghost predicate Shaped(members: set<int>, r: nat, t: Tables) {
    && Ring(members, r, t.lists) && t.phases.Keys == members
  }

  ghost predicate NodeOk(members: set<int>, r: nat, t: Tables, n: int, k: nat, j: nat) {
    n in t.lists && n in t.phases && t.lists[n] != [] && InOrder(members, n, t.lists[n], k) &&
        PhaseOk(members, r, t, n, j)
  }

  /** k entries are right in all lists, and k - 1 in what has been read of them. */
  ghost predicate Level(members: set<int>, r: nat, t: Tables, k: nat) {
    && Shaped(members, r, t) && 1 <= k <= r
    && forall n | n in members :: NodeOk(members, r, t, n, k, k - 1)
  }

  lemma OthersStay(members: set<int>, r: nat, t: Tables, a: Act, u: Tables, m: int, k: nat, j: nat)
    requires Shaped(members, r, t) && Step(t, a, u) && m != a.n && NodeOk(members, r, t, m, k, j)
    ensures NodeOk(members, r, u, m, k, j)
  {
    hide InOrder, Shifted, Ring;
  }

  lemma StepKeepsShape(members: set<int>, r: nat, t: Tables, a: Act, u: Tables)
    requires Shaped(members, r, t) && Step(t, a, u)
    ensures Shaped(members, r, u)
  {
    hide IsNext, Shifted;
    var n := a.n;
    if a.Write? {
      ShiftedFacts(t.lists[n], t.phases[n].list);
      assert u.lists.Keys == t.lists.Keys;
    }
    assert u.phases.Keys == t.phases.Keys;
  }

  lemma ShiftedFacts(own: seq<int>, other: seq<int>)
    requires 1 <= |other| <= |own|
    ensures |Shifted(own, other)| == |own| && Shifted(own, other)[0] == own[0]
  {
  }

  /** The acting node: what it reads is as good as all lists, and what it writes one better than what it has read. */
  lemma OwnStep(members: set<int>, r: nat, t: Tables, a: Act, u: Tables, k: nat, own: nat, j: nat)
    requires Level(members, r, t, k) && Step(t, a, u) && own <= r && NodeOk(members, r, t, a.n, own, j)
    ensures a.Begin? ==> NodeOk(members, r, u, a.n, own, r)
    ensures a.Read? ==> NodeOk(members, r, u, a.n, own, k)
    ensures a.Write? ==> NodeOk(members, r, u, a.n, Up(j, r), r)
  {
    hide InOrder, IsNext, Shifted;
    var n := a.n;
    match a
    case Begin(_) =>
    case Read(_) => assert NodeOk(members, r, t, t.lists[n][0], k, k - 1);
    case Write(_) => ShiftedInOrder(members, n, t.lists[n], t.phases[n].list, j);
      if j > r { LessThan(members, t.lists[n][0], t.phases[n].list, j); }
  }

  lemma LessThan(members: set<int>, n: int, list: seq<int>, j: nat)
    requires InOrder(members, n, list, j)
    ensures j <= |list|
  {
  }

  lemma NodeLess(members: set<int>, r: nat, t: Tables, n: int, k: nat, j: nat, k': nat, j': nat)
    requires NodeOk(members, r, t, n, k, j) && k' <= k && (j' <= j || (n in t.phases && !t.phases[n].Holding?))
    ensures NodeOk(members, r, t, n, k', j')
  {
    hide InOrder;
    LessInOrder(members, n, t.lists[n], k', k);
    if t.phases[n].Holding? { LessInOrder(members, t.lists[n][0], t.phases[n].list, j', j); }
  }

  // ----- rounds

  /** How far node n has come between i and x: 0, 1 once it has read, and 2 once it has then written. */
  function Progress(acts: seq<Act>, i: nat, x: nat, n: int): (p: nat)
    requires i <= x <= |acts|
    ensures p <= 2
    decreases x
  {
    if x == i then 0
    else
      var p := Progress(acts, i, x - 1, n);
      if p == 0 && acts[x - 1] == Read(n) then 1 else if p == 1 && acts[x - 1] == Write(n) then 2 else p
  }

  /** Node n reads its successor's list, and later writes its own. */
  ghost predicate Updates(acts: seq<Act>, i: nat, j: nat, n: int) {
    exists a: nat, b: nat :: i <= a < b < j <= |acts| && acts[a] == Read(n) && acts[b] == Write(n)
  }

  lemma {:induction false} ProgressGrows(acts: seq<Act>, i: nat, x: nat, y: nat, n: int)
    requires i <= x <= y <= |acts|
    ensures Progress(acts, i, x, n) <= Progress(acts, i, y, n)
    decreases y
  {
    if x < y { ProgressGrows(acts, i, x, y - 1, n); }
  }

  lemma UpdatesFinish(acts: seq<Act>, i: nat, j: nat, n: int)
    requires i <= j <= |acts| && Updates(acts, i, j, n)
    ensures Progress(acts, i, j, n) == 2
  {
    var a: nat, b: nat :| i <= a < b < j && acts[a] == Read(n) && acts[b] == Write(n);
    ProgressGrows(acts, i, a + 1, b, n);
    ProgressGrows(acts, i, b + 1, j, n);
  }

  /** What is right of n's list and of what it has read, by how far it has come. */
  ghost predicate Reached(members: set<int>, r: nat, t: Tables, n: int, k: nat, p: nat)
    requires 1 <= k
  {
    NodeOk(members, r, t, n, if p == 2 then Up(k, r) else k, if p >= 1 then k else k - 1)
  }

  lemma ReachedStep(members: set<int>, r: nat, t: Tables, a: Act, u: Tables, k: nat, n: int, p: nat)
    requires Level(members, r, t, k) && Step(t, a, u) && Reached(members, r, t, n, k, p) && p <= 2
    ensures Reached(members, r, u, n, k, if p == 0 && a == Read(n) then 1 else if p == 1 && a == Write(n) then 2 else p)
  {
    hide NodeOk, Shaped, Step, Level;
    LevelBounds(members, r, t, k);
    var own, j := if p == 2 then Up(k, r) else k, if p >= 1 then k else k - 1;
    if n != a.n {
      OthersStay(members, r, t, a, u, n, own, j);
    } else {
      OwnStep(members, r, t, a, u, k, own, j);
      match a
      case Begin(_) => NodeLess(members, r, u, n, own, r, own, j);
      case Read(_) => NodeLess(members, r, u, n, own, k, own, k);
      case Write(_) =>
        NodeLess(members, r, u, n, Up(j, r), r, if p >= 1 then Up(k, r) else k, if p >= 1 then k else k - 1);
    }
  }

  lemma LevelBounds(members: set<int>, r: nat, t: Tables, k: nat)
    requires Level(members, r, t, k)
    ensures 1 <= k <= r && Shaped(members, r, t)
    ensures forall n | n in members :: NodeOk(members, r, t, n, k, k - 1)
  {
    hide NodeOk, Shaped;
  }

  lemma {:induction false} DuringRound(
        members: set<int>, r: nat, run: seq<Tables>, acts: seq<Act>, i: nat, x: nat, k: nat)
    requires Run(run, acts) && i <= x <= |acts| && Level(members, r, run[i], k)
    ensures Level(members, r, run[x], k)
    ensures forall n | n in members :: Reached(members, r, run[x], n, k, Progress(acts, i, x, n))
    decreases x
  {
    hide NodeOk, Shaped, Step, Level;
    LevelBounds(members, r, run[i], k);
    if i < x {
      DuringRound(members, r, run, acts, i, x - 1, k);
      assert Step(run[x - 1], acts[x - 1], run[x - 1 + 1]);
      forall n | n in members ensures Reached(members, r, run[x], n, k, Progress(acts, i, x, n)) {
        ReachedStep(members, r, run[x - 1], acts[x - 1], run[x], k, n, Progress(acts, i, x - 1, n));
      }
      LevelBounds(members, r, run[x - 1], k);
      StepKeepsShape(members, r, run[x - 1], acts[x - 1], run[x]);
      LevelFrom(members, r, run[x], k, n => if n in members then Progress(acts, i, x, n) else 0);
    }
  }

  lemma LevelFrom(members: set<int>, r: nat, t: Tables, k: nat, p: int -> nat)
    requires Shaped(members, r, t) && 1 <= k <= r && forall n | n in members :: Reached(members, r, t, n, k, p(n))
    ensures Level(members, r, t, k)
    ensures (forall n | n in members :: p(n) == 2) ==> Level(members, r, t, Up(k, r))
  {
    hide NodeOk, Shaped;
    forall n | n in members ensures NodeOk(members, r, t, n, k, k - 1) {
      assert Reached(members, r, t, n, k, p(n));
      NodeLess(members, r, t, n, if p(n) == 2 then Up(k, r) else k, if p(n) >= 1 then k else k - 1, k, k - 1);
    }
    if forall n | n in members :: p(n) == 2 {
      forall n | n in members ensures NodeOk(members, r, t, n, Up(k, r), Up(k, r) - 1) {
        assert Reached(members, r, t, n, k, p(n));
        NodeLess(members, r, t, n, Up(k, r), k, Up(k, r), Up(k, r) - 1);
      }
    }
  }

  /** In the round, every node updates its list. */
  ghost predicate Round(members: set<int>, acts: seq<Act>, i: nat, j: nat) {
    i <= j <= |acts| && forall n | n in members :: Updates(acts, i, j, n)
  }

  lemma OneRound(members: set<int>, r: nat, run: seq<Tables>, acts: seq<Act>, i: nat, j: nat, k: nat)
    requires Run(run, acts) && Round(members, acts, i, j) && Level(members, r, run[i], k)
    ensures Level(members, r, run[j], Up(k, r))
  {
    hide NodeOk, Shaped, Step, Level, Updates, Reached;
    DuringRound(members, r, run, acts, i, j, k);
    LevelBounds(members, r, run[j], k);
    forall n | n in members ensures Progress(acts, i, j, n) == 2 { UpdatesFinish(acts, i, j, n); }
    LevelFrom(members, r, run[j], k, n => if n in members then Progress(acts, i, j, n) else 0);
  }

  lemma {:induction false} MoreRounds(
        members: set<int>, r: nat, run: seq<Tables>, acts: seq<Act>, bounds: seq<nat>, k: nat)
    requires Run(run, acts) && bounds != [] && bounds[0] < |run| && Level(members, r, run[bounds[0]], k)
    requires forall i | 0 < i < |bounds| :: Round(members, acts, bounds[i - 1], bounds[i])
    ensures Level(members, r, run[|run| - 1], if |bounds| - 1 + k <= r then |bounds| - 1 + k else r)
    decreases |bounds|
  {
    hide Step, Level, Updates, Round;
    LevelBounds(members, r, run[bounds[0]], k);
    if |bounds| == 1 {
      DuringRound(members, r, run, acts, bounds[0], |acts|, k);
    } else {
      var rest := bounds[1..];
      assert Round(members, acts, bounds[1 - 1], bounds[1]);
      RoundBounds(members, acts, bounds[0], bounds[1]);
      OneRound(members, r, run, acts, bounds[0], bounds[1], k);
      forall i | 0 < i < |rest| ensures Round(members, acts, rest[i - 1], rest[i]) {
        assert Round(members, acts, bounds[i + 1 - 1], bounds[i + 1]);
      }
      MoreRounds(members, r, run, acts, rest, Up(k, r));
    }
  }

  lemma RoundBounds(members: set<int>, acts: seq<Act>, i: nat, j: nat)
    requires Round(members, acts, i, j)
    ensures i <= j <= |acts|
  {
  }

  /** No node is updating. */
  ghost predicate AllOut(t: Tables) { forall n | n in t.phases :: t.phases[n] == Out }

  lemma StartLevel(members: set<int>, r: nat, t: Tables)
    requires Shaped(members, r, t) && AllOut(t)
    ensures Level(members, r, t, 1)
  {
    hide IsNext;
  }

  /**
   * After k rounds, in which the nodes' acts interleave in any way, the first k + 1 entries of every list are right.
   */
  lemma AfterRounds(members: set<int>, r: nat, run: seq<Tables>, acts: seq<Act>, bounds: seq<nat>)
    requires Run(run, acts) && Shaped(members, r, run[0]) && AllOut(run[0]) && bounds != [] && bounds[0] == 0
    requires forall i | 0 < i < |bounds| :: Round(members, acts, bounds[i - 1], bounds[i])
    ensures var t := run[|run| - 1];
      Ring(members, r, t.lists) &&
          forall n | n in members :: InOrder(members, n, t.lists[n], if |bounds| <= r then |bounds| else r)
  {
    hide Step, Round, Ring, InOrder;
    StartLevel(members, r, run[0]);
    MoreRounds(members, r, run, acts, bounds, 1);
  }

  // ----- all nodes at once

  ghost predicate CanAct(t: Tables) { exists a, u :: Step(t, a, u) }

  /** Every node has its own lock and waits for that of another. */
  ghost predicate Deadlocked(t: Tables) {
    forall n | n in t.lists :: n in t.phases && t.phases[n] == Waiting && t.lists[n] != [] && t.lists[n][0] != n
  }

  lemma NobodyActs(t: Tables, a: Act, u: Tables)
    requires Deadlocked(t)
    ensures !Step(t, a, u)
  {
    hide Shifted;
  }

  /** On an ideal ring some node can go on unless all of them have begun, none has its answer, and nobody is alone. */
  lemma StuckIff(members: set<int>, r: nat, t: Tables, k: nat)
    requires Level(members, r, t, k)
    ensures CanAct(t) <==> !Deadlocked(t)
  {
    hide InOrder, Shifted, IsNext;
    if Deadlocked(t) {
      forall a, u ensures !Step(t, a, u) { NobodyActs(t, a, u); }
    } else {
      LevelBounds(members, r, t, k);
      var n :| n in t.lists && !(n in t.phases && t.phases[n] == Waiting && t.lists[n] != [] && t.lists[n][0] != n);
      assert NodeOk(members, r, t, n, k, k - 1);
      match t.phases[n]
      case Out => assert Step(t, Begin(n), t.(phases := t.phases[n := Waiting]));
      case Waiting => assert Step(t, Read(n), t.(phases := t.phases[n := Holding(t.lists[n])]));
      case Holding(l) => assert Step(t, Write(n), Tables(t.lists[n := Shifted(t.lists[n], l)], t.phases[n := Out]));
    }
  }

  /** From any state with no updates under way, all nodes beginning one after the other leads there. */
  lemma {:induction false} AllBegin(t: Tables, left: set<int>) returns (run: seq<Tables>, acts: seq<Act>)
    requires left <= t.lists.Keys == t.phases.Keys && (forall n | n in t.lists :: t.lists[n] != [])
    requires forall n | n in t.phases :: t.phases[n] == if n in left then Out else Waiting
    ensures Run(run, acts) && run[0] == t && run[|run| - 1].lists == t.lists &&
        run[|run| - 1].phases.Keys == t.phases.Keys
    ensures forall n | n in t.phases :: run[|run| - 1].phases[n] == Waiting
    decreases |left|
  {
    if n :| n in left {
      var u := t.(phases := t.phases[n := Waiting]);
      var more, rest := AllBegin(u, left - {n});
      run, acts := [t] + more, [Begin(n)] + rest;
      forall x | 0 <= x < |acts| ensures Step(run[x], acts[x], run[x + 1]) {
        if x > 0 { assert Step(more[x - 1], rest[x - 1], more[x - 1 + 1]); }
      }
    } else {
      run, acts := [t], [];
    }
  }

  /** Every ideal ring of more than one node can come to a standstill, without any failure. */
  lemma CanDeadlock(members: set<int>, r: nat, t: Tables, a: int, b: int) returns (run: seq<Tables>, acts: seq<Act>)
    requires Shaped(members, r, t) && AllOut(t) && a in members && b in members && a != b
    ensures Run(run, acts) && run[0] == t && Deadlocked(run[|run| - 1]) && !CanAct(run[|run| - 1])
  {
    hide Step, IsNext;
    run, acts := AllBegin(t, members);
    var last := run[|run| - 1];
    forall n | n in t.lists ensures t.lists[n] != [] && t.lists[n][0] != n {
      NotAlone(members, r, t, n, if n == a then b else a);
    }
    StartLevel(members, r, t);
    DuringRound(members, r, run, acts, 0, |acts|, 1);
    StuckIff(members, r, last, 1);
  }

  lemma NotAlone(members: set<int>, r: nat, t: Tables, n: int, other: int)
    requires Shaped(members, r, t) && n in members && other in members && other != n
    ensures n in t.lists && t.lists[n] != [] && t.lists[n][0] != n
  {
    hide Between;
    SelfBetween(n, other);
  }
}
