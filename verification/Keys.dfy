/** Chord's identifiers: 20 bytes, most significant first, on a circle of 2^160 points. */
module Keys {

  type Byte = x: int | 0 <= x < 256

  type Key = s: seq<Byte> | |s| == 20 witness seq(20, _ => 0)

  /** The number of points on the circle. */
  const CIRCLE: nat := 0x1_00000000_00000000_00000000_00000000_00000000

  function Value(s: seq<Byte>): nat {
    if s == [] then 0 else 256 * Value(s[..|s| - 1]) + s[|s| - 1]
  }

  function Power256(n: nat): nat { if n == 0 then 1 else 256 * Power256(n - 1) }

  function Power2(n: nat): nat { if n == 0 then 1 else 2 * Power2(n - 1) }

  // ----- comparing keys

  /** The library's byte comparison, answering "greater". */
  predicate BytesGreater(a: seq<Byte>, b: seq<Byte>) {
    a != [] && (b == [] || a[0] > b[0] || (a[0] == b[0] && BytesGreater(a[1..], b[1..])))
  }

  predicate CompareKeys(keyA: Key, keyB: Key) { BytesGreater(keyA, keyB) }

  predicate SameKey(keyA: Key, keyB: Key) { keyA == keyB }

  predicate KeyInBetweenExclusive(leftBound: Key, rightBound: Key, key: Key) {
    || ((CompareKeys(leftBound, rightBound) || SameKey(leftBound, rightBound)) &&
        (CompareKeys(key, leftBound) || CompareKeys(rightBound, key)))
    || (CompareKeys(rightBound, leftBound) && CompareKeys(rightBound, key) && CompareKeys(key, leftBound))
  }

  predicate KeyInBetweenRightInclusive(leftBound: Key, rightBound: Key, key: Key) {
    KeyInBetweenExclusive(leftBound, rightBound, key) || SameKey(key, rightBound)
  }

  lemma {:induction false} ValueCons(x: Byte, s: seq<Byte>)
    ensures Value([x] + s) == x * Power256(|s|) + Value(s)
  {
    if s == [] {
      assert ([x] + s)[..0] == [];
    } else {
      var t := s[..|s| - 1];
      ValueCons(x, t);
      assert ([x] + s)[..|s|] == [x] + t;
      assert Power256(|s|) == 256 * Power256(|t|);
      MulAssoc(x, Power256(|t|));
    }
  }

  lemma MulAssoc(x: int, p: int)
    ensures 256 * (x * p) == x * (256 * p)
  {
  }

  lemma {:induction false} ValueBound(s: seq<Byte>)
    ensures Value(s) < Power256(|s|)
  {
    if s != [] { ValueBound(s[..|s| - 1]); }
  }

  lemma MulStep(a: int, b: int, p: nat)
    requires a > b
    ensures a * p >= b * p + p
  {
    MulDistributes(a, b, p);
    MulAtLeast(a - b, p);
  }

  lemma MulDistributes(a: int, b: int, p: int)
    ensures a * p == (a - b) * p + b * p
  {
  }

  lemma MulAtLeast(a: int, p: nat)
    requires a >= 1
    ensures a * p >= p
  {
  }

  /** Comparing byte by byte is comparing numbers. */
  lemma {:induction false} CompareIsNumeric(a: seq<Byte>, b: seq<Byte>)
    requires |a| == |b|
    ensures BytesGreater(a, b) <==> Value(a) > Value(b)
    ensures a == b <==> Value(a) == Value(b)
  {
    hide Value;
    if a != [] {
      var p := Power256(|a| - 1);
      CompareIsNumeric(a[1..], b[1..]);
      assert a == [a[0]] + a[1..] && b == [b[0]] + b[1..];
      ValueCons(a[0], a[1..]);
      ValueCons(b[0], b[1..]);
      ValueBound(a[1..]);
      ValueBound(b[1..]);
      if a[0] > b[0] { MulStep(a[0], b[0], p); }
      if a[0] < b[0] { MulStep(b[0], a[0], p); }
    }
  }

  // ----- the circle

  /** How far k is clockwise from l. */
  function Distance(l: int, k: int): nat { (k - l) % CIRCLE }

  /** Strictly between l and r, going clockwise; with l = r, anywhere but at l. */
  predicate Between(l: int, r: int, k: int) {
    if Distance(l, r) == 0 then Distance(l, k) != 0 else 0 < Distance(l, k) < Distance(l, r)
  }

  /** Going clockwise from a, the first member after it is b; it is a itself if there is no other. */
  ghost predicate IsNext(members: set<int>, a: int, b: int) {
    b in members && forall x | x in members :: !Between(a, b, x)
  }

  /** Whether node s, which has predecessor p if `known`, takes n for its predecessor. */
  predicate Accepts(known: bool, p: int, s: int, n: int) {
    n != s && (!known || p == n || Between(p, s, n))
  }

  /** Whether node n, which asked q and has now the successor s, takes p for its successor. */
  predicate Adopts(n: int, q: int, s: int, p: int) {
    Between(n, q, p) && Between(n, s, p)
  }

  lemma DistanceIs(l: int, k: int)
    requires 0 <= l < CIRCLE && 0 <= k < CIRCLE
    ensures Distance(l, k) == if k >= l then k - l else k - l + CIRCLE
  {
  }

  lemma TwentyBytes()
    ensures Power256(20) == CIRCLE
  {
    assert Power256(4) == 0x1_00000000;
    PowerSum(4, 4);
    PowerSum(8, 8);
    PowerSum(16, 4);
  }

  lemma {:induction false} PowerSum(a: nat, b: nat)
    ensures Power256(a + b) == Power256(a) * Power256(b)
  {
    if b > 0 {
      PowerSum(a, b - 1);
      MulAssoc(Power256(a), Power256(b - 1));
    }
  }

  lemma KeyBound(k: Key)
    ensures 0 <= Value(k) < CIRCLE
  {
    TwentyBytes();
    ValueBound(k);
  }

  /** The source's case analysis on byte order is betweenness on the circle. */
  lemma BetweenOnCircle(l: Key, r: Key, k: Key)
    ensures KeyInBetweenExclusive(l, r, k) <==> Between(Value(l), Value(r), Value(k))
    ensures KeyInBetweenRightInclusive(l, r, k) <==> Between(Value(l), Value(r), Value(k)) || Value(k) == Value(r)
  {
    hide Value, BytesGreater, Distance;
    KeyBound(l);
    KeyBound(r);
    KeyBound(k);
    CompareIsNumeric(l, r);
    CompareIsNumeric(r, l);
    CompareIsNumeric(k, l);
    CompareIsNumeric(r, k);
    CompareIsNumeric(k, r);
    DistanceIs(Value(l), Value(k));
    DistanceIs(Value(l), Value(r));
  }

  /** Adopting a successor, as the source tests it on bytes. */
  lemma AdoptsOnKeys(n: Key, q: Key, s: Key, p: Key)
    ensures Adopts(Value(n), Value(q), Value(s), Value(p)) <==>
        KeyInBetweenExclusive(n, q, p) && KeyInBetweenExclusive(n, s, p)
  {
    hide KeyInBetweenExclusive, Value, Between, BytesGreater;
    BetweenOnCircle(n, q, p);
    BetweenOnCircle(n, s, p);
  }

  // ----- the keys that fingers look up

  /** The bytes of a number, without leading zeros. */
  function BytesOf(v: nat): (s: seq<Byte>)
    ensures Value(s) == v
    ensures s != [] ==> s[0] > 0
  {
    if v == 0 then []
    else
      var front := BytesOf(v / 256);
      var s := front + [v % 256];
      assert s[..|front|] == front;
      s
  }

  /** Exactly twenty bytes: the last ones, or all of them after zeros. */
  function Fit(s: seq<Byte>): Key {
    if |s| > 20 then s[|s| - 20..] else seq(20 - |s|, _ => 0) + s
  }

  function KeyToLook(index: nat, identifier: Key): Key {
    Fit(BytesOf((Value(identifier) + Power2(index)) % CIRCLE))
  }

  lemma LongIsLarge(s: seq<Byte>)
    requires s != [] && s[0] > 0
    ensures Value(s) >= Power256(|s| - 1)
  {
    assert s == [s[0]] + s[1..];
    ValueCons(s[0], s[1..]);
    MulAtLeast(s[0], Power256(|s| - 1));
  }

  lemma {:induction false} PowerMono(a: nat, b: nat)
    requires a <= b
    ensures Power256(a) <= Power256(b)
    decreases b
  {
    if a < b { PowerMono(a, b - 1); }
  }

  lemma {:induction false} ValueAfterZeros(n: nat, s: seq<Byte>)
    ensures Value(seq<Byte>(n, _ => 0) + s) == Value(s)
    decreases n
  {
    var z := seq<Byte>(n, _ => 0);
    if n == 0 {
      assert z + s == s;
    } else {
      var y := seq<Byte>(n - 1, _ => 0);
      ValueAfterZeros(n - 1, s);
      ValueCons(0, y + s);
      assert z + s == [0] + (y + s);
    }
  }

  /** For every index, the key looked up is the identifier plus that power of two, around the circle. */
  lemma KeyToLookAdds(index: nat, identifier: Key)
    ensures Value(KeyToLook(index, identifier)) == (Value(identifier) + Power2(index)) % CIRCLE
  {
    hide Value, Power2;
    var v := (Value(identifier) + Power2(index)) % CIRCLE;
    var s := BytesOf(v);
    TwentyBytes();
    if |s| > 20 {
      LongIsLarge(s);
      PowerMono(20, |s| - 1);
      assert false;
    }
    ValueAfterZeros(20 - |s|, s);
  }
}
