/**
 * When the node that a lookup asks next is the closest to the hash that the tables know. Among nodes between this
 * one and the hash, the closest to the hash is the farthest from here.
 */
module ClosestPreceding {
  import opened Options
  import opened Keys
  import opened ChordNode

  function Away(self: Key, e: Finger): nat { Distance(Value(self), Value(e.id)) }

  /** Apart from entries that name this node, later entries are not nearer. */
  ghost predicate Clockwise(table: seq<Finger>, self: Key) {
    forall i, j | 0 <= i < j < |table|
        && table[i].address != "" && table[j].address != "" && table[i].id != self && table[j].id != self ::
      Away(self, table[i]) <= Away(self, table[j])
  }

  /** No qualifying entry is closer to the hash than e. */
  ghost predicate Closest(table: seq<Finger>, self: Key, hash: Key, e: Finger) {
    forall x | x in table && Qualifies(x, self, hash) :: Away(self, x) <= Away(self, e)
  }

  // ----- tables in clockwise order

  lemma {:induction false} LastIsClosest(table: seq<Finger>, self: Key, hash: Key)
    requires Clockwise(table, self)
    ensures match LastBetween(table, self, hash)
      case None => forall x | x in table :: !Qualifies(x, self, hash)
      case Some(e) => Closest(table, self, hash, e)
    decreases |table|
  {
    hide Qualifies, Away;
    if table != [] {
      var front, e := table[..|table| - 1], table[|table| - 1];
      LastIsClosest(front, self, hash);
      assert table == front + [e];
      if Qualifies(e, self, hash) {
        forall x | x in table && Qualifies(x, self, hash) ensures Away(self, x) <= Away(self, e) {
          var i :| 0 <= i < |table| && table[i] == x;
          NamedIfQualifies(x, self, hash);
          NamedIfQualifies(e, self, hash);
        }
      }
    }
  }

  lemma NamedIfQualifies(e: Finger, self: Key, hash: Key)
    requires Qualifies(e, self, hash)
    ensures e.address != "" && e.id != self
  {
    KeyBound(self);
    KeyBound(e.id);
    KeyBound(hash);
    BetweenOnCircle(self, hash, e.id);
    hide Value, KeyInBetweenExclusive;
  }

  /** Comparing as numbers is comparing clockwise exactly if the keys are the same, or on the same side of this node. */
  lemma NumbersAgree(self: Key, f: Key, s: Key)
    requires f != self && s != self
    ensures (CompareKeys(f, s) <==> Distance(Value(self), Value(f)) > Distance(Value(self), Value(s))) <==>
            f == s || (CompareKeys(self, f) <==> CompareKeys(self, s))
  {
    hide Value, BytesGreater, Distance;
    KeyBound(self);
    KeyBound(f);
    KeyBound(s);
    CompareIsNumeric(f, s);
    CompareIsNumeric(self, f);
    CompareIsNumeric(self, s);
    DistanceIs(Value(self), Value(f));
    DistanceIs(Value(self), Value(s));
  }

  lemma SameDistance(self: Key, f: Key, s: Key)
    ensures Distance(Value(self), Value(f)) == Distance(Value(self), Value(s)) <==> f == s
  {
    hide Value, BytesGreater, Distance;
    KeyBound(self);
    KeyBound(f);
    KeyBound(s);
    CompareIsNumeric(f, s);
    DistanceIs(Value(self), Value(f));
    DistanceIs(Value(self), Value(s));
  }

  /** Whoever is not farther than a qualifying node qualifies, too. */
  lemma NearerQualifies(self: Key, hash: Key, x: Finger, y: Finger)
    requires Qualifies(y, self, hash) && x.address != "" && x.id != self && Away(self, x) <= Away(self, y)
    ensures Qualifies(x, self, hash)
  {
    hide Value, KeyInBetweenExclusive, BytesGreater, Distance;
    KeyBound(self);
    KeyBound(hash);
    KeyBound(x.id);
    KeyBound(y.id);
    BetweenOnCircle(self, hash, x.id);
    BetweenOnCircle(self, hash, y.id);
    CompareIsNumeric(self, x.id);
    DistanceIs(Value(self), Value(x.id));
  }

  // ----- lists that go round the ring more than once

  /** The entries before the first that names this node. */
  function FirstLap(list: seq<Finger>, self: Key): (lap: seq<Finger>)
    ensures |lap| <= |list| && lap == list[..|lap|]
    ensures forall x | x in lap :: x.id != self
    ensures |lap| < |list| ==> list[|lap|].id == self
  {
    if list == [] || list[0].id == self then []
    else
      var rest := FirstLap(list[1..], self);
      assert list == [list[0]] + list[1..];
      [list[0]] + rest
  }

  ghost predicate Periodic(list: seq<Finger>, n: nat) {
    forall i | n <= i < |list| :: list[i] == list[i - n]
  }

  ghost predicate StrictlyClockwise(lap: seq<Finger>, self: Key) {
    (forall i | 0 <= i < |lap| :: lap[i].address != "")
    && forall i, j | 0 <= i < j < |lap| :: Away(self, lap[i]) < Away(self, lap[j])
  }

  /** Once around the ring in clockwise order, and then, if the list is longer than the ring, all over again. */
  ghost predicate InLaps(list: seq<Finger>, self: Key) {
    var lap := FirstLap(list, self);
    && Clockwise(lap, self)
    && (|lap| < |list| ==> StrictlyClockwise(lap, self) && Periodic(list, |lap| + 1))
  }

  /** What is left of the list after whole laps of n entries. */
  function LastLap(list: seq<Finger>, n: nat): (r: seq<Finger>)
    requires n > 0
    ensures |r| < n && |r| <= |list|
    decreases |list|
  {
    if |list| < n then list else LastLap(list[n..], n)
  }

  lemma {:induction false} LastOfConcat(a: seq<Finger>, b: seq<Finger>, self: Key, hash: Key)
    ensures LastBetween(a + b, self, hash) ==
        if LastBetween(b, self, hash).Some? then LastBetween(b, self, hash) else LastBetween(a, self, hash)
    decreases |b|
  {
    hide Qualifies;
    if b == [] {
      assert a + b == a;
    } else {
      var c, e := b[..|b| - 1], b[|b| - 1];
      LastOfConcat(a, c, self, hash);
      assert (a + b)[..|a + b| - 1] == a + c && (a + b)[|a + b| - 1] == e;
    }
  }

  lemma LaterLaps(list: seq<Finger>, n: nat)
    requires 0 < n <= |list| && Periodic(list, n)
    ensures Periodic(list[n..], n) && (n <= |list[n..]| ==> list[n..][..n] == list[..n])
    ensures list[n..] == list[..|list| - n]
  {
    forall i | 0 <= i < |list| - n ensures list[n..][i] == list[i] {
      assert list[i + n] == list[i + n - n];
    }
  }

  /** The last qualifying entry is in the unfinished lap, or else in a whole one. */
  lemma {:induction false} LastInLaps(list: seq<Finger>, n: nat, self: Key, hash: Key)
    requires 0 < n <= |list| && Periodic(list, n)
    ensures var tail := LastLap(list, n);
      && tail == list[..|tail|]
      && LastBetween(list, self, hash) ==
           if LastBetween(tail, self, hash).Some? then LastBetween(tail, self, hash)
           else LastBetween(list[..n], self, hash)
    decreases |list|
  {
    hide Qualifies, Periodic, LastBetween;
    var rest := list[n..];
    LaterLaps(list, n);
    assert list == list[..n] + rest;
    LastOfConcat(list[..n], rest, self, hash);
    if n <= |rest| {
      LastInLaps(rest, n, self, hash);
      assert rest[..|LastLap(rest, n)|] == list[..|LastLap(rest, n)|];
    }
  }

  /** Whatever a list of laps holds is in its first lap, or names this node. */
  lemma {:induction false} AllInFirstLap(list: seq<Finger>, self: Key, i: nat)
    requires InLaps(list, self) && i < |list|
    ensures list[i] in FirstLap(list, self) || list[i].id == self
    decreases i
  {
    hide Clockwise, StrictlyClockwise;
    var lap := FirstLap(list, self);
    if i < |lap| {
      assert lap[i] == list[i];
    } else if i > |lap| {
      AllInFirstLap(list, self, i - (|lap| + 1));
    }
  }

  lemma SelfDoesNotQualify(e: Finger, self: Key, hash: Key)
    requires e.id == self
    ensures !Qualifies(e, self, hash)
  {
    hide Qualifies;
    if Qualifies(e, self, hash) { NamedIfQualifies(e, self, hash); }
  }

  /** The closest of the list is the last qualifying entry of the first lap. */
  lemma FirstLapHasClosest(list: seq<Finger>, self: Key, hash: Key)
    requires InLaps(list, self)
    ensures match LastBetween(FirstLap(list, self), self, hash)
      case None => forall x | x in list :: !Qualifies(x, self, hash)
      case Some(e) => e in list && Closest(list, self, hash, e)
  {
    hide Qualifies, Away, Clockwise, StrictlyClockwise, Periodic, LastBetween;
    var lap := FirstLap(list, self);
    LastIsClosest(lap, self, hash);
    forall x | x in list && Qualifies(x, self, hash) ensures x in lap {
      var i :| 0 <= i < |list| && list[i] == x;
      AllInFirstLap(list, self, i);
      if x.id == self { SelfDoesNotQualify(x, self, hash); }
    }
    forall x | x in lap ensures x in list {
      var i :| 0 <= i < |lap| && lap[i] == x;
      assert list[i] == x;
    }
  }

  /** The list's last lap is cut off before its closest entry. */
  ghost predicate CutShort(list: seq<Finger>, self: Key, hash: Key) {
    var lap := FirstLap(list, self);
    && |lap| < |list|
    && var tail := LastLap(list, |lap| + 1);
    tail != [] && Qualifies(list[|tail|], self, hash)
  }

  lemma {:induction false} PrefixLast(lap: seq<Finger>, r: nat, self: Key, hash: Key)
    requires StrictlyClockwise(lap, self) && (forall x | x in lap :: x.id != self) && 0 < r < |lap|
    requires !Qualifies(lap[r], self, hash)
    ensures LastBetween(lap, self, hash) == LastBetween(lap[..r], self, hash)
    decreases |lap|
  {
    hide Qualifies, Away, LastBetween;
    var n := |lap| - 1;
    assert !Qualifies(lap[n], self, hash) by {
      assert lap[r] in lap;
      if Qualifies(lap[n], self, hash) && r < n { NearerQualifies(self, hash, lap[r], lap[n]); }
    }
    LastIfNot(lap, self, hash);
    if r < n {
      PrefixLast(lap[..n], r, self, hash);
      assert lap[..n][..r] == lap[..r];
    }
  }

  lemma LastIfNot(lap: seq<Finger>, self: Key, hash: Key)
    requires lap != [] && !Qualifies(lap[|lap| - 1], self, hash)
    ensures LastBetween(lap, self, hash) == LastBetween(lap[..|lap| - 1], self, hash)
  {
  }

  lemma LastOfPrefix(lap: seq<Finger>, r: nat, self: Key, hash: Key)
    requires StrictlyClockwise(lap, self) && (forall x | x in lap :: x.id != self) && 0 < r < |lap|
    requires Qualifies(lap[r], self, hash)
    ensures LastBetween(lap[..r], self, hash) == Some(lap[r - 1]) && Away(self, lap[r - 1]) < Away(self, lap[r])
  {
    hide Qualifies, Away;
    assert lap[r - 1] in lap;
    NearerQualifies(self, hash, lap[r - 1], lap[r]);
  }

  /** Of a lap's first r entries the last qualifying one is that of the whole lap, unless entry r qualifies, too. */
  lemma LastOfTail(lap: seq<Finger>, r: nat, self: Key, hash: Key)
    requires StrictlyClockwise(lap, self) && Clockwise(lap, self) && (forall x | x in lap :: x.id != self) && r <= |lap|
    ensures
      var b, t := LastBetween(lap, self, hash), LastBetween(lap[..r], self, hash);
      if 0 < r < |lap| && Qualifies(lap[r], self, hash)
      then t.Some? && b.Some? && Away(self, t.value) < Away(self, b.value)
      else t.None? || t == b
  {
    hide Qualifies, Away, LastBetween, Clockwise, StrictlyClockwise;
    NoEntry(self, hash);
    if 0 < r < |lap| {
      if Qualifies(lap[r], self, hash) {
        LastOfPrefix(lap, r, self, hash);
        CutIsNearer(lap, r, self, hash);
      } else {
        PrefixLast(lap, r, self, hash);
      }
    } else if r == |lap| {
      assert lap[..r] == lap;
    }
  }

  /** In a list of laps, the last qualifying entry is the closest exactly if the last lap is not cut short before it. */
  lemma LastOfListIff(list: seq<Finger>, self: Key, hash: Key)
    requires InLaps(list, self)
    ensures var s, b := LastBetween(list, self, hash), LastBetween(FirstLap(list, self), self, hash);
      && (s.Some? <==> b.Some?)
      && (s.Some? ==> if CutShort(list, self, hash) then Away(self, s.value) < Away(self, b.value) else s == b)
  {
    hide Qualifies, Away, LastBetween, Clockwise, StrictlyClockwise, Periodic, FirstLap, LastLap;
    var lap := FirstLap(list, self);
    if |lap| == |list| {
      assert lap == list;
    } else {
      var n := |lap| + 1;
      var r := |LastLap(list, n)|;
      LastInLaps(list, n, self, hash);
      WholeLap(list, self, hash);
      SelfDoesNotQualify(list[|lap|], self, hash);
      assert lap == list[..|lap|];
      assert list[..r] == lap[..r];
      assert r < |lap| ==> lap[r] == list[r];
      LastOfTail(lap, r, self, hash);
    }
  }

  lemma WholeLap(list: seq<Finger>, self: Key, hash: Key)
    requires |FirstLap(list, self)| < |list|
    ensures var n := |FirstLap(list, self)|;
        LastBetween(list[..n + 1], self, hash) == LastBetween(list[..n], self, hash)
  {
    hide Qualifies, LastBetween;
    var n := |FirstLap(list, self)|;
    SelfDoesNotQualify(list[n], self, hash);
    LastIfNot(list[..n + 1], self, hash);
    assert list[..n + 1][..n] == list[..n];
  }

  lemma CutIsNearer(lap: seq<Finger>, r: nat, self: Key, hash: Key)
    requires StrictlyClockwise(lap, self) && Clockwise(lap, self) && 0 < r < |lap| && Qualifies(lap[r], self, hash)
    ensures LastBetween(lap, self, hash).Some? && Away(self, lap[r]) <= Away(self, LastBetween(lap, self, hash).value)
  {
    hide Qualifies, Away, LastBetween;
    LastIsClosest(lap, self, hash);
    assert lap[r] in lap;
  }

  lemma NoEntry(self: Key, hash: Key)
    ensures LastBetween([], self, hash) == None
  {
  }

  // ----- the choice between the candidates of both tables

  /** The candidates of the two tables are the same or on the same side of this node: zero is not between them. */
  ghost predicate RightAboutZero(fingers: seq<Finger>, list: seq<Finger>, self: Key, hash: Key) {
    var f, s := LastBetween(fingers, self, hash), LastBetween(list, self, hash);
    f.Some? && s.Some? ==>
        f.value.id == s.value.id || (CompareKeys(self, f.value.id) <==> CompareKeys(self, s.value.id))
  }

  /** The list's last lap is not cut short before its closest entry, or a finger is at least as close as that one. */
  ghost predicate RightAboutEnd(fingers: seq<Finger>, list: seq<Finger>, self: Key, hash: Key) {
    var f, b := LastBetween(fingers, self, hash), LastBetween(FirstLap(list, self), self, hash);
    b.Some? && CutShort(list, self, hash) ==> f.Some? && Away(self, b.value) <= Away(self, f.value)
  }

  lemma LastIsIn(table: seq<Finger>, self: Key, hash: Key)
    ensures var e := LastBetween(table, self, hash); e.Some? ==> e.value in table && Qualifies(e.value, self, hash)
  {
    hide Qualifies;
  }

  /** With fingers in clockwise order and a list in laps, the choice is the closest of all exactly if both are right. */
  lemma ClosestIff(fingers: seq<Finger>, list: seq<Finger>, self: Key, hash: Key)
    requires Clockwise(fingers, self) && InLaps(list, self)
    ensures var chosen := Preferred(LastBetween(fingers, self, hash), LastBetween(list, self, hash));
      chosen.Some? ==>
        (Closest(fingers + list, self, hash, chosen.value) <==>
         RightAboutZero(fingers, list, self, hash) && RightAboutEnd(fingers, list, self, hash))
  {
    hide Qualifies, Away, Clockwise, CompareKeys, LastBetween, InLaps, CutShort;
    LastIsClosest(fingers, self, hash);
    FirstLapHasClosest(list, self, hash);
    LastOfListIff(list, self, hash);
    LastIsIn(fingers, self, hash);
    LastIsIn(list, self, hash);
    LastIsIn(FirstLap(list, self), self, hash);
    forall x ensures x in fingers + list <==> x in fingers || x in list {}
    if LastBetween(fingers, self, hash).Some? && LastBetween(list, self, hash).Some? {
      ClosestOfTwo(fingers, list, self, hash);
    }
  }

  /** The case of a qualifying entry in each. */
  lemma ClosestOfTwo(fingers: seq<Finger>, list: seq<Finger>, self: Key, hash: Key)
    requires Clockwise(fingers, self) && InLaps(list, self)
    requires LastBetween(fingers, self, hash).Some? && LastBetween(list, self, hash).Some?
    ensures var f, s := LastBetween(fingers, self, hash), LastBetween(list, self, hash);
      Closest(fingers + list, self, hash, Preferred(f, s).value) <==>
        RightAboutZero(fingers, list, self, hash) && RightAboutEnd(fingers, list, self, hash)
  {
    hide Qualifies, Clockwise, CompareKeys, LastBetween, Value, Distance, InLaps, CutShort;
    var f, s := LastBetween(fingers, self, hash).value, LastBetween(list, self, hash).value;
    LastIsClosest(fingers, self, hash);
    FirstLapHasClosest(list, self, hash);
    LastOfListIff(list, self, hash);
    var b := LastBetween(FirstLap(list, self), self, hash).value;
    LastIsIn(fingers, self, hash);
    LastIsIn(list, self, hash);
    LastIsIn(FirstLap(list, self), self, hash);
    NamedIfQualifies(f, self, hash);
    NamedIfQualifies(s, self, hash);
    NumbersAgree(self, f.id, s.id);
    SameDistance(self, f.id, s.id);
    var e := Preferred(Some(f), Some(s)).value;
    forall x ensures x in fingers + list <==> x in fingers || x in list {}
    assert Closest(fingers + list, self, hash, e) <==> Away(self, f) <= Away(self, e) && Away(self, b) <= Away(self, e);
  }

  // ----- an input

  function SmallKey(b: Byte): Key { seq<Byte>(19, _ => 0) + [b] }

  lemma SmallValue(b: Byte)
    ensures Value(SmallKey(b)) == b
  {
    ValueAfterZeros(19, [b]);
    assert Value([b]) == b by { assert [b][..0] == []; }
  }

  /** Node 10 looks for 5. Its finger 4 is the closest, but across zero, and it asks its successor 20 instead. */
  lemma NotClosestAcrossZero()
    ensures
      var fingers, list := [Finger(SmallKey(4), "four")], [Finger(SmallKey(20), "twenty")];
      var self, hash := SmallKey(10), SmallKey(5);
      && Clockwise(fingers, self) && Clockwise(list, self)
      && Preferred(LastBetween(fingers, self, hash), LastBetween(list, self, hash)) == Some(list[0])
      && Qualifies(fingers[0], self, hash) && Away(self, fingers[0]) > Away(self, list[0])
  {
    hide SmallKey, Value, BytesGreater, KeyInBetweenExclusive, Distance;
    SmallValue(4);
    SmallValue(5);
    SmallValue(10);
    SmallValue(20);
    var self, hash := SmallKey(10), SmallKey(5);
    BetweenOnCircle(self, hash, SmallKey(4));
    BetweenOnCircle(self, hash, SmallKey(20));
    CompareIsNumeric(SmallKey(4), SmallKey(20));
    DistanceIs(10, 4);
    DistanceIs(10, 5);
    DistanceIs(10, 20);
    var f, s := Finger(SmallKey(4), "four"), Finger(SmallKey(20), "twenty");
    OnlyEntry(f, self, hash);
    OnlyEntry(s, self, hash);
  }

  lemma OnlyEntry(e: Finger, self: Key, hash: Key)
    ensures LastBetween([e], self, hash) == if Qualifies(e, self, hash) then Some(e) else None
  {
    assert [e][..0] == [];
  }
}
