/** The tables that nodes of an ideal ring have are in the order that the choice of the closest node relies on. */
module IdealTables {
  import opened Options
  import opened Keys
  import opened ChordProtocol
  import opened ChordNode
  import opened SuccessorLists
  import opened ClosestPreceding

  // ----- finger tables

  lemma {:induction false} PowersGrow(i: nat, j: nat)
    requires i <= j
    ensures 0 < Power2(i) <= Power2(j)
    decreases j
  {
    if i < j {
      PowersGrow(i, j - 1);
    } else if i > 0 {
      PowersGrow(i - 1, i - 1);
    }
  }

  lemma {:induction false} EightBits(n: nat)
    ensures Power2(8 * n) == Power256(n)
  {
    if n > 0 {
      EightBits(n - 1);
      var m := 8 * (n - 1);
      DoubledFour(m);
      DoubledFour(m + 4);
    }
  }

  lemma DoubledFour(m: nat)
    ensures Power2(m + 4) == 16 * Power2(m)
  {
    assert Power2(m + 2) == 2 * Power2(m + 1);
    assert Power2(m + 4) == 2 * Power2(m + 3);
  }

  lemma PowerOnCircle(i: nat)
    requires i < 160
    ensures 0 < Power2(i) < CIRCLE
  {
    PowersGrow(i, 159);
    EightBits(20);
    TwentyBytes();
    assert Power2(160) == 2 * Power2(159);
    hide Power2;
  }

  /** The first members at or after n + p and n + q, if they are not n itself. */
  lemma FirstFromFarther(n: int, p: int, q: int, f: int, g: int)
    requires OnCircle(n) && OnCircle(f) && OnCircle(g) && f != n && g != n && 0 < p <= q < CIRCLE
    requires Distance((n + p) % CIRCLE, f) <= Distance((n + p) % CIRCLE, n)
    requires Distance((n + p) % CIRCLE, f) <= Distance((n + p) % CIRCLE, g)
    requires Distance((n + q) % CIRCLE, g) <= Distance((n + q) % CIRCLE, n)
    ensures Distance(n, f) <= Distance(n, g)
  {
    FromAfter(n, p, n);
    FromAfter(n, p, f);
    FromAfter(n, p, g);
    FromAfter(n, q, n);
    FromAfter(n, q, g);
    hide Distance;
    DistanceIs(n, f);
    DistanceIs(n, g);
    DistanceIs(n, n);
  }

  lemma FromAfter(n: int, p: int, x: int)
    requires OnCircle(n) && OnCircle(x) && 0 < p < CIRCLE
    ensures Distance((n + p) % CIRCLE, x) == Distance(n, x) - p + if Distance(n, x) < p then CIRCLE else 0
  {
    hide Distance;
    var m := (n + p) % CIRCLE;
    assert m == if n + p < CIRCLE then n + p else n + p - CIRCLE;
    DistanceIs(m, x);
    DistanceIs(n, x);
  }

  /** Each finger in use is the answer for its power of two. */
  ghost predicate Answered(net: map<string, ChordClient>, self: Key, table: seq<Finger>)
    reads net.Values`successor
  {
    |table| <= 160
    && forall i | 0 <= i < |table| && table[i].address != "" :: ChordClient.Answers(net, KeyToLook(i, self), table[i])
  }

  lemma FingerIsFirst(net: map<string, ChordClient>, self: Key, table: seq<Finger>, i: nat)
    requires ValidNet(net) && Ideal(net) && Answered(net, self, table) && i < |table| && table[i].address != ""
    ensures FirstFrom(net, (Value(self) + Power2(i)) % CIRCLE, table[i])
  {
    hide ValidNet, Ideal, FirstFrom, Value, Power2, KeyToLook, ChordClient.Answers;
    KeyToLookAdds(i, self);
    AnswerIsFirst(net, KeyToLook(i, self), table[i]);
  }

  /** On an ideal ring the fingers of a node are in clockwise order, however many of them are in use. */
  lemma FingersAreClockwise(net: map<string, ChordClient>, here: string, table: seq<Finger>)
    requires ValidNet(net) && Ideal(net) && here in net && Answered(net, net[here].identifier, table)
    ensures Clockwise(table, net[here].identifier)
  {
    hide ValidNet, Ideal, Answered, FirstFrom, Value, Power2, Distance;
    var self := net[here].identifier;
    forall i, j | 0 <= i < j < |table|
        && table[i].address != "" && table[j].address != "" && table[i].id != self && table[j].id != self
      ensures Away(self, table[i]) <= Away(self, table[j])
    {
      AnsweredSize(net, self, table);
      FingerIsFirst(net, self, table, i);
      FingerIsFirst(net, self, table, j);
      FirstsFarther(net, here, i, j, table[i], table[j]);
    }
  }

  lemma AnsweredSize(net: map<string, ChordClient>, self: Key, table: seq<Finger>)
    requires Answered(net, self, table)
    ensures |table| <= 160
  {
  }

  lemma FirstsFarther(net: map<string, ChordClient>, here: string, i: nat, j: nat, f: Finger, g: Finger)
    requires here in net && i <= j < 160 && f.id != net[here].identifier && g.id != net[here].identifier
    requires FirstFrom(net, (Value(net[here].identifier) + Power2(i)) % CIRCLE, f)
    requires FirstFrom(net, (Value(net[here].identifier) + Power2(j)) % CIRCLE, g)
    ensures Away(net[here].identifier, f) <= Away(net[here].identifier, g)
  {
    hide Value, Power2, Distance;
    var self := net[here].identifier;
    PowersGrow(i, j);
    PowerOnCircle(i);
    PowerOnCircle(j);
    KeyBound(self);
    KeyBound(f.id);
    KeyBound(g.id);
    CompareIsNumeric(self, f.id);
    CompareIsNumeric(self, g.id);
    assert Names(net, g);
    FirstFromFarther(Value(self), Power2(i), Power2(j), Value(f.id), Value(g.id));
  }

  // ----- successor lists

  /** An entry of a correct list is farther than the one before it, until the list comes back to its node. */
  lemma NextIsFarther(members: set<int>, n: int, a: int, b: int)
    requires OnCircle(n) && OnCircle(a) && OnCircle(b) && n in members && a != n && b != n && IsNext(members, a, b)
    ensures Distance(n, a) < Distance(n, b)
  {
    hide Distance;
    DistanceIs(a, b);
    DistanceIs(a, n);
    DistanceIs(n, a);
    DistanceIs(n, b);
  }

  /** A list of nodes of the network, which names the next members in order. */
  ghost predicate Correct(net: map<string, ChordClient>, self: Key, list: seq<Finger>) {
    && (forall f | f in list :: f.address != "" && Names(net, f))
    && InOrder(Members(net), Value(self), Ids(list), |list|)
  }

  lemma EntryIsNext(net: map<string, ChordClient>, self: Key, list: seq<Finger>, i: nat)
    requires Correct(net, self, list) && i < |list|
    ensures list[i].address != "" && Names(net, list[i])
    ensures IsNext(Members(net), if i == 0 then Value(self) else Value(list[i - 1].id), Value(list[i].id))
  {
    hide Value, IsNext, Members;
    assert list[i] in list;
    assert IsNext(Members(net), Before(Value(self), Ids(list), i), Ids(list)[i]);
  }

  lemma {:induction false} LapIsStrict(net: map<string, ChordClient>, here: string, list: seq<Finger>, i: nat, j: nat)
    requires here in net && Correct(net, net[here].identifier, list) && i < j < |FirstLap(list, net[here].identifier)|
    ensures Away(net[here].identifier, list[i]) < Away(net[here].identifier, list[j])
    decreases j
  {
    hide Correct, Value, IsNext, Distance;
    var self := net[here].identifier;
    var lap := FirstLap(list, self);
    if i < j - 1 { LapIsStrict(net, here, list, i, j - 1); }
    EntryIsNext(net, self, list, j);
    assert lap[j - 1] in lap && lap[j] in lap;
    assert Value(self) in Members(net);
    KeyBound(self);
    KeyBound(list[j - 1].id);
    KeyBound(list[j].id);
    CompareIsNumeric(self, list[j - 1].id);
    CompareIsNumeric(self, list[j].id);
    NextIsFarther(Members(net), Value(self), Value(list[j - 1].id), Value(list[j].id));
  }

  /** Where a correct list names its node, it starts over. */
  lemma {:induction false} StartsOver(net: map<string, ChordClient>, here: string, list: seq<Finger>, n: nat, i: nat)
    requires ValidNet(net) && here in net && Correct(net, net[here].identifier, list)
    requires 0 < n <= i < |list| && list[n - 1].id == net[here].identifier
    ensures list[i] == list[i - n]
    decreases i
  {
    hide ValidNet, Correct, Value, IsNext, Names;
    var self := net[here].identifier;
    if i > n { StartsOver(net, here, list, n, i - 1); }
    EntryIsNext(net, self, list, i);
    EntryIsNext(net, self, list, i - n);
    var a := if i == n then Value(self) else Value(list[i - 1].id);
    MemberOf(net, here);
    if i > n {
      EntryIsNext(net, self, list, i - 1);
      NamedIsMember(net, list[i - 1]);
    }
    OnTheCircle(net);
    SameNext(net, a, list[i], list[i - n]);
  }

  lemma MemberOf(net: map<string, ChordClient>, a: string)
    requires a in net
    ensures Value(net[a].identifier) in Members(net)
  {
    hide Value;
  }

  lemma NamedIsMember(net: map<string, ChordClient>, f: Finger)
    requires Names(net, f)
    ensures Value(f.id) in Members(net)
  {
    hide Value;
    MemberOf(net, f.address);
  }

  lemma OnTheCircle(net: map<string, ChordClient>)
    ensures forall m | m in Members(net) :: OnCircle(m)
  {
    hide Value;
    forall m | m in Members(net) ensures OnCircle(m) {
      var a :| a in net && Value(net[a].identifier) == m;
      KeyBound(net[a].identifier);
    }
  }

  lemma SameNext(net: map<string, ChordClient>, a: int, f: Finger, g: Finger)
    requires ValidNet(net) && Names(net, f) && Names(net, g) && a in Members(net) && OnCircle(a)
    requires IsNext(Members(net), a, Value(f.id)) && IsNext(Members(net), a, Value(g.id))
    ensures f == g
  {
    hide ValidNet, Value, IsNext, Members;
    KeyBound(f.id);
    KeyBound(g.id);
    NextIsUnique(Members(net), a, Value(f.id), Value(g.id));
    CompareIsNumeric(f.id, g.id);
    OneNodePerId(net, f, g);
  }

  lemma OneNodePerId(net: map<string, ChordClient>, f: Finger, g: Finger)
    requires ValidNet(net) && Names(net, f) && Names(net, g) && f.id == g.id
    ensures f == g
  {
    hide ChordClient.WellFormed;
  }

  /** A correct successor list goes round the ring in laps, whatever its length. */
  lemma ListsAreInLaps(net: map<string, ChordClient>, here: string, list: seq<Finger>)
    requires ValidNet(net) && here in net && Correct(net, net[here].identifier, list)
    ensures InLaps(list, net[here].identifier)
  {
    hide ValidNet, Correct, Away;
    var self := net[here].identifier;
    var lap := FirstLap(list, self);
    forall i | 0 <= i < |lap| ensures lap[i].address != "" { EntryIsNext(net, self, list, i); }
    forall i, j | 0 <= i < j < |lap| ensures Away(self, lap[i]) < Away(self, lap[j]) {
      LapIsStrict(net, here, list, i, j);
    }
    if |lap| < |list| {
      var n := |lap| + 1;
      forall i | n <= i < |list| ensures list[i] == list[i - n] { StartsOver(net, here, list, n, i); }
    }
  }

  // ----- the choice on an ideal ring

  /** When all fingers are filled, those below any cursor are answers. */
  lemma FilledIsAnswered(net: map<string, ChordClient>, client: ChordClient, cursor: nat)
    requires Filled(net, client) && cursor <= 160
    ensures |client.fingerTable| == 160 && Answered(net, client.identifier, client.fingerTable[..cursor])
  {
    hide KeyToLook, ChordClient.Answers;
  }

  /**
   * On an ideal ring, at a node with answers for fingers and a correct list of any length, the entry that a lookup goes
   * to is the closest of all that it considers exactly if the choice is right about zero and about the end of the list.
   */
  lemma ChoiceIff(net: map<string, ChordClient>, here: string, fingers: seq<Finger>, list: seq<Finger>, hash: Key)
    requires ValidNet(net) && Ideal(net) && here in net
    requires Answered(net, net[here].identifier, fingers) && Correct(net, net[here].identifier, list)
    ensures
      var self := net[here].identifier;
      var chosen := Preferred(LastBetween(fingers, self, hash), LastBetween(list, self, hash));
      chosen.Some? ==>
        (Closest(fingers + list, self, hash, chosen.value) <==>
         RightAboutZero(fingers, list, self, hash) && RightAboutEnd(fingers, list, self, hash))
  {
    hide *;
    FingersAreClockwise(net, here, fingers);
    ListsAreInLaps(net, here, list);
    ClosestIff(fingers, list, net[here].identifier, hash);
  }

  // ----- an input

  function SmallFinger(b: Byte): Finger { Finger(SmallKey(b), [b as char]) }

  /** The successor list of node 0 on the ring of 0, 1 and 2, with four entries. */
  function LongList(): seq<Finger> { [SmallFinger(1), SmallFinger(2), SmallFinger(0), SmallFinger(1)] }

  lemma LongListIds()
    ensures Ids(LongList()) == [1, 2, 0, 1]
  {
    hide SmallKey, Value;
    SmallValue(0);
    SmallValue(1);
    SmallValue(2);
  }

  lemma LongListInOrder()
    ensures InOrder({0, 1, 2}, 0, Ids(LongList()), 4)
  {
    hide Ids, LongList, Distance;
    LongListIds();
    DistanceIs(0, 0);
    DistanceIs(0, 1);
    DistanceIs(0, 2);
    DistanceIs(1, 0);
    DistanceIs(1, 1);
    DistanceIs(1, 2);
    DistanceIs(2, 0);
    DistanceIs(2, 1);
    DistanceIs(2, 2);
    assert forall i | 0 <= i < 4 :: IsNext({0, 1, 2}, Before(0, [1, 2, 0, 1], i), [1, 2, 0, 1][i]);
  }

  lemma SmallAway(b: Byte)
    ensures Away(SmallKey(0), SmallFinger(b)) == b && (b > 0 ==> SmallKey(b) != SmallKey(0))
  {
    hide SmallKey, Value, Distance;
    SmallValue(0);
    SmallValue(b);
    DistanceIs(0, b);
  }

  lemma SmallQualifies(b: Byte)
    requires 0 < b < 5
    ensures Qualifies(SmallFinger(b), SmallKey(0), SmallKey(5))
  {
    hide SmallKey, Value, Distance, KeyInBetweenExclusive;
    SmallValue(0);
    SmallValue(b);
    SmallValue(5);
    DistanceIs(0, b);
    DistanceIs(0, 5);
    BetweenOnCircle(SmallKey(0), SmallKey(5), SmallKey(b));
  }

  /** Node 0 looks for 5. Its list ends with 1, which it asks, although 2 is in the list, too, and closer. */
  lemma NotClosestInLongList()
    ensures
      var list, self, hash := LongList(), SmallKey(0), SmallKey(5);
      && InOrder({0, 1, 2}, 0, Ids(list), 4) && InLaps(list, self)
      && Preferred(LastBetween([], self, hash), LastBetween(list, self, hash)) == Some(list[3])
      && Qualifies(list[1], self, hash) && Away(self, list[1]) > Away(self, list[3])
      && !RightAboutEnd([], list, self, hash)
  {
    hide SmallKey, Away, Qualifies;
    var list, self, hash := LongList(), SmallKey(0), SmallKey(5);
    LongListInOrder();
    SmallAway(1);
    SmallAway(2);
    SmallQualifies(1);
    SmallQualifies(2);
    assert FirstLap(list, self) == list[..2] by {
      assert list[1..][0] == list[1] && list[1..][1..][0] == list[2];
      assert FirstLap(list[1..][1..], self) == [];
      assert FirstLap(list[1..], self) == [list[1]];
    }
    assert list[3..] == LastLap(list, 3);
  }
}
