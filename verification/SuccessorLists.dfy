/** What the successor lists hold on an ideal ring, and what a node's repair finds in one. */
module SuccessorLists {
  import opened Keys
  import opened ChordProtocol
  import opened ChordNode

  lemma NextIsUnique(members: set<int>, a: int, b: int, b': int)
    requires OnCircle(a) && OnCircle(b) && OnCircle(b') && a in members && IsNext(members, a, b) &&
        IsNext(members, a, b')
    ensures b == b'
  {
    hide Distance;
    DistanceIs(a, b);
    DistanceIs(a, b');
  }

  /** What comes before entry i of n's list. */
  function Before(n: int, list: seq<int>, i: nat): int
    requires i <= |list|
  {
    if i == 0 then n else list[i - 1]
  }

  /** The first k entries of n's list are the next members after n, in order. */
  ghost predicate InOrder(members: set<int>, n: int, list: seq<int>, k: nat) {
    k <= |list| && forall i | 0 <= i < k :: IsNext(members, Before(n, list, i), list[i])
  }

  /** An ideal ring with lists of r entries. */
  ghost predicate Ring(members: set<int>, r: nat, lists: map<int, seq<int>>) {
    && r > 0 && lists.Keys == members && (forall n | n in members :: OnCircle(n))
    && forall n {:trigger lists[n]} | n in members :: |lists[n]| == r && IsNext(members, n, lists[n][0])
  }

  /** The first entry stays, the other's follow it, and what they do not cover stays. */
  lemma ShiftedAt<T>(own: seq<T>, other: seq<T>, i: nat)
    requires 1 <= |other| <= |own| && i < |own|
    ensures |Shifted(own, other)| == |own|
    ensures Shifted(own, other)[i] == if 1 <= i < |other| then other[i - 1] else own[i]
  {
  }

  lemma ShiftedInOrder(members: set<int>, n: int, own: seq<int>, other: seq<int>, k: nat)
    requires own != [] && |own| == |other| && IsNext(members, n, own[0]) && InOrder(members, own[0], other, k)
    ensures |Shifted(own, other)| == |own| && Shifted(own, other)[0] == own[0]
    ensures InOrder(members, n, Shifted(own, other), if k < |own| then k + 1 else k)
  {
    hide IsNext, Shifted;
    var shifted := Shifted(own, other);
    ShiftedAt(own, other, 0);
    forall i | 0 <= i < |own| && i <= k ensures IsNext(members, Before(n, shifted, i), shifted[i]) {
      ShiftedAt(own, other, i);
      if i > 0 {
        ShiftedAt(own, other, i - 1);
        assert IsNext(members, Before(own[0], other, i - 1), other[i - 1]);
      }
    }
  }

  lemma LessInOrder(members: set<int>, n: int, list: seq<int>, j: nat, k: nat)
    requires InOrder(members, n, list, k) && j <= k
    ensures InOrder(members, n, list, j)
  {
    hide IsNext;
  }

  // ----- repair

  function FirstAliveId(list: seq<int>, alive: set<int>, n: int): int {
    if list == [] then n else if list[0] in alive then list[0] else FirstAliveId(list[1..], alive, n)
  }

  /** A member past the first entry is past it as seen from there, too. */
  lemma PastFirst(n: int, s: int, b: int, x: int)
    requires OnCircle(n) && OnCircle(s) && OnCircle(b) && OnCircle(x)
    requires Between(n, b, x) && !Between(n, s, x) && x != s && b != s
    requires !Between(n, s, b) || b == n
    ensures Between(s, b, x)
  {
    hide Distance;
    DistanceIs(n, s);
    DistanceIs(n, b);
    DistanceIs(n, x);
    DistanceIs(s, b);
    DistanceIs(s, x);
  }

  /** Every live member before the first live entry is an entry before it; so there is none. */
  lemma {:induction false} FirstAliveIsNext(
        members: set<int>, n: int, list: seq<int>, alive: set<int>, itself: int, x: int)
    requires InOrder(members, n, list, |list|) && n in members && (forall m | m in members :: OnCircle(m)) &&
        alive <= members
    requires x in alive && exists i :: 0 <= i < |list| && list[i] in alive
    ensures FirstAliveId(list, alive, itself) in alive && !Between(n, FirstAliveId(list, alive, itself), x)
    decreases |list|
  {
    hide Between;
    var s := list[0];
    assert IsNext(members, Before(n, list, 0), list[0]);
    if s !in alive {
      var rest := list[1..];
      forall i | 0 <= i < |rest| ensures IsNext(members, Before(s, rest, i), rest[i]) {
        assert IsNext(members, Before(n, list, i + 1), list[i + 1]);
      }
      var j :| 0 <= j < |list| && list[j] in alive;
      assert rest[j - 1] in alive;
      FirstAliveIsNext(members, s, rest, alive, itself, x);
      var b := FirstAliveId(list, alive, itself);
      if Between(n, b, x) {
        assert !Between(n, s, x) && !Between(n, s, b);
        PastFirst(n, s, b, x);
      }
    }
  }

  lemma {:induction false} NoneAlive(list: seq<int>, alive: set<int>, n: int)
    requires forall i | 0 <= i < |list| :: list[i] !in alive
    ensures FirstAliveId(list, alive, n) == n
  {
    if list != [] { NoneAlive(list[1..], alive, n); }
  }

  /**
   * What a live node puts first when it repairs a correct list is the next live member exactly if some entry
   * of the list is alive, or the node is the only live member.
   */
  lemma RepairFindsNext(members: set<int>, n: int, list: seq<int>, alive: set<int>)
    requires InOrder(members, n, list, |list|) && (forall m | m in members :: OnCircle(m)) && alive <= members &&
        n in alive
    ensures IsNext(alive, n, FirstAliveId(list, alive, n)) <==>
        alive == {n} || exists i :: 0 <= i < |list| && list[i] in alive
  {
    hide Between, InOrder;
    var b := FirstAliveId(list, alive, n);
    if exists i :: 0 <= i < |list| && list[i] in alive {
      forall x | x in alive ensures b in alive && !Between(n, b, x) {
        FirstAliveIsNext(members, n, list, alive, n, x);
      }
    } else {
      NoneAlive(list, alive, n);
      forall x | x in alive ensures Between(n, n, x) <==> x != n { SelfBetween(n, x); }
      if forall x | x in alive :: x == n { assert alive == {n}; }
    }
  }

  // ----- the lists that nodes hold

  function Ids(list: seq<Finger>): seq<int> {
    seq(|list|, i requires 0 <= i < |list| => Value(list[i].id))
  }

  lemma ShiftedIds(own: seq<Finger>, other: seq<Finger>)
    requires 1 <= |other| <= |own|
    ensures Ids(Shifted(own, other)) == Shifted(Ids(own), Ids(other))
  {
    hide Value;
  }

  /** A node's scan of its list is the scan of the identifiers in it. */
  lemma {:induction false} FirstAliveById(list: seq<Finger>, up: set<string>, alive: set<int>, itself: Finger)
    requires forall f | f in list :: (f.address != "" && f.address in up) <==> Value(f.id) in alive
    ensures Value(FirstAlive(list, up, itself).id) == FirstAliveId(Ids(list), alive, Value(itself.id))
  {
    hide Value;
    if list != [] {
      assert Ids(list)[1..] == Ids(list[1..]);
      FirstAliveById(list[1..], up, alive, itself);
    }
  }

  // ----- inputs at which the source goes wrong

  /** Node 0's correct list is [1]. When 1 fails, 0 takes itself for its successor, although 2 is alive. */
  lemma DeadListMisleads()
    ensures InOrder({0, 1, 2}, 0, [1], 1) && FirstAliveId([1], {0, 2}, 0) == 0
    ensures !IsNext({0, 2}, 0, 0) && IsNext({0, 2}, 0, 2)
  {
    hide Distance;
    DistanceIs(0, 0);
    DistanceIs(0, 1);
    DistanceIs(0, 2);
    assert Before(0, [1], 0) == 0;
    assert [1][1..] == [];
  }

  /** A node that keeps one successor panics when the other keeps two. */
  method LongerListPanics() returns (panicked: bool)
    ensures panicked
  {
    var zero: Key := seq(20, _ => 0);
    var one: Key := seq(20, i => if i == 19 then 1 else 0);
    var short := new ChordClient(zero, "short", 1);
    var long := new ChordClient(one, "long", 2);
    short.successor := [Finger(one, "long")];
    var net := map["short" := short, "long" := long];
    panicked := short.UpdateSuccessorList(net, {"short", "long"});
  }
}
