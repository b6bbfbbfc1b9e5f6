/** Sets of small naturals kept in 64-bit words, bit p % 64 of word p / 64 standing for p. */
module Bitset {

  function Shifted(w: bv64, n: nat): bv64
    decreases n
  {
    if n == 0 then w else Shifted(w << 1, n - 1)
  }

  /** The word 1 << minor. */
  function Mask(minor: nat): bv64 { Shifted(1, minor) }

  /** Exactly one bit is set. */
  predicate OneBit(m: bv64) { m != 0 && m & (m - 1) == 0 }

  function And(a: bv64, b: bv64): bv64 { a & b }

  function Double(a: bv64): bv64 { a << 1 }

  function Or(a: bv64, b: bv64): bv64 { a | b }

  function AndNot(a: bv64, b: bv64): bv64 { a & !b }

  function Halve(a: bv64): bv64 { a >> 1 }

  /** A count as a word. */
  function ToWord(n: nat): bv64 { (n % 0x1_0000_0000_0000_0000) as bv64 }

  predicate TestBit(w: bv64, minor: nat) { And(w, Mask(minor)) != 0 }

  function SetBit(w: bv64, minor: nat): bv64 { Or(w, Mask(minor)) }

  function ClearBit(w: bv64, minor: nat): bv64 { AndNot(w, Mask(minor)) }

  ghost predicate Has(words: seq<bv64>, p: nat) {
    p < 64 * |words| && TestBit(words[p / 64], p % 64)
  }

  ghost function Members(words: seq<bv64>): (s: set<nat>)
    ensures forall p: nat :: p in s <==> Has(words, p)
  {
    set p: nat | p < 64 * |words| && Has(words, p)
  }

  /** The number of bits set among the lowest n. */
  function Ones(w: bv64, n: nat): nat {
    if n == 0 then 0 else (if And(w, 1) != 0 then 1 else 0) + Ones(Halve(w), n - 1)
  }

  function PopulationCount(words: seq<bv64>): nat {
    if words == [] then 0 else PopulationCount(words[..|words| - 1]) + Ones(words[|words| - 1], 64)
  }

  function XorAll(seed: bv64, words: seq<bv64>): bv64 {
    if words == [] then seed else XorAll(seed, words[..|words| - 1]) ^ words[|words| - 1]
  }

  function HashOf(words: seq<bv64>): bv64 { XorAll(ToWord(PopulationCount(words)), words) }

  // ----- single bits

  lemma {:induction false} ShiftedStep(w: bv64, n: nat)
    ensures Shifted(w, n + 1) == Shifted(w, n) << 1
    decreases n
  {
    if n > 0 { ShiftedStep(w << 1, n - 1); }
  }

  lemma {:induction false} ShiftedZero(n: nat)
    ensures Shifted(0, n) == 0
  {
    if n > 0 { ShiftedZero(n - 1); }
  }

  lemma {:induction false} ShiftedSum(w: bv64, i: nat, j: nat)
    ensures Shifted(Shifted(w, i), j) == Shifted(w, i + j)
    decreases i
  {
    if i > 0 { ShiftedSum(w << 1, i - 1, j); }
  }

  lemma DoubleOneBit(m: bv64)
    requires OneBit(m) && m << 1 != 0
    ensures OneBit(m << 1)
  {
  }

  lemma MaskSteps(n: nat)
    ensures Mask(0) == 1 && Mask(n + 1) == Mask(n) << 1
  {
    ShiftedStep(1, n);
  }

  lemma Four(w: bv64)
    ensures Shifted(w, 4) == w << 4
  {
    assert Shifted(w, 4) == Shifted(w << 1, 3) == Shifted(w << 1 << 1, 2) == Shifted(w << 1 << 1 << 1, 1);
    assert Shifted(w << 1 << 1 << 1, 1) == Shifted(w << 1 << 1 << 1 << 1, 0);
  }

  /** Four more places to the left of a word whose value is known. */
  lemma FourMore(n: nat, w: bv64)
    requires Mask(n) == w
    ensures Mask(n + 4) == w << 4
  {
    hide Shifted;
    ShiftedSum(1, n, 4);
    Four(w);
  }

  lemma TopMask()
    ensures Mask(63) == 0x8000_0000_0000_0000
  {
    hide *;
    MaskSteps(0);
    MaskSteps(1);
    MaskSteps(2);
    FourMore(3, 0x8);
    FourMore(7, 0x80);
    FourMore(11, 0x800);
    FourMore(15, 0x8000);
    FourMore(19, 0x8_0000);
    FourMore(23, 0x80_0000);
    FourMore(27, 0x800_0000);
    FourMore(31, 0x8000_0000);
    FourMore(35, 0x8_0000_0000);
    FourMore(39, 0x80_0000_0000);
    FourMore(43, 0x800_0000_0000);
    FourMore(47, 0x8000_0000_0000);
    FourMore(51, 0x8_0000_0000_0000);
    FourMore(55, 0x80_0000_0000_0000);
    FourMore(59, 0x800_0000_0000_0000);
  }

  lemma MaskNotZero(i: nat)
    requires i < 64
    ensures Mask(i) != 0
  {
    hide Shifted;
    ShiftedSum(1, i, 63 - i);
    ShiftedZero(63 - i);
    TopMask();
  }

  lemma {:induction false} MaskIsOneBit(i: nat)
    requires i < 64
    ensures OneBit(Mask(i))
  {
    hide Mask, Shifted;
    MaskSteps(0);
    if i > 0 {
      MaskIsOneBit(i - 1);
      MaskSteps(i - 1);
      MaskNotZero(i);
      DoubleOneBit(Mask(i - 1));
    }
  }

  lemma DoublesDisjoint(a: bv64, b: bv64)
    requires And(a, b) == 0
    ensures And(Double(a), Double(b)) == 0
  {
  }

  lemma DoubleIsEven(a: bv64)
    ensures And(1, Double(a)) == 0
  {
  }

  lemma MaskDoubles(n: nat)
    ensures Mask(0) == 1 && Mask(n + 1) == Double(Mask(n))
  {
    hide Mask;
    MaskSteps(n);
  }

  lemma {:induction false} MasksDisjoint(i: nat, j: nat)
    requires i < j
    ensures And(Mask(i), Mask(j)) == 0
  {
    hide *;
    MaskDoubles(j - 1);
    if i == 0 {
      DoubleIsEven(Mask(j - 1));
    } else {
      MaskDoubles(i - 1);
      MasksDisjoint(i - 1, j - 1);
      DoublesDisjoint(Mask(i - 1), Mask(j - 1));
    }
  }

  lemma OrElsewhere(w: bv64, m: bv64, k: bv64)
    requires And(m, k) == 0
    ensures And(Or(w, m), k) == And(w, k)
  {
  }

  lemma AndNotElsewhere(w: bv64, m: bv64, k: bv64)
    requires And(m, k) == 0
    ensures And(AndNot(w, m), k) == And(w, k)
  {
  }

  lemma OrThere(w: bv64, m: bv64)
    requires m != 0
    ensures And(Or(w, m), m) != 0
  {
  }

  lemma AndNotThere(w: bv64, m: bv64)
    ensures And(AndNot(w, m), m) == 0
  {
  }

  lemma Disjoint(i: nat, j: nat)
    requires i < 64 && j < 64 && i != j
    ensures And(Mask(i), Mask(j)) == 0
  {
    hide Mask, Shifted;
    if i < j {
      MasksDisjoint(i, j);
    } else {
      MasksDisjoint(j, i);
      AndCommutes(Mask(i), Mask(j));
    }
  }

  lemma AndCommutes(a: bv64, b: bv64)
    ensures And(a, b) == And(b, a)
  {
  }

  lemma SetThere(w: bv64, i: nat)
    requires i < 64
    ensures TestBit(SetBit(w, i), i)
  {
    hide Mask, Shifted, And, Or;
    MaskNotZero(i);
    OrThere(w, Mask(i));
  }

  lemma ClearThere(w: bv64, i: nat)
    ensures !TestBit(ClearBit(w, i), i)
  {
    hide Mask, Shifted, And, AndNot;
    AndNotThere(w, Mask(i));
  }

  lemma UpdateElsewhere(w: bv64, i: nat, j: nat)
    requires i < 64 && j < 64 && i != j
    ensures TestBit(SetBit(w, i), j) == TestBit(w, j)
    ensures TestBit(ClearBit(w, i), j) == TestBit(w, j)
  {
    hide Mask, Shifted, And, Or, AndNot;
    Disjoint(i, j);
    OrElsewhere(w, Mask(i), Mask(j));
    AndNotElsewhere(w, Mask(i), Mask(j));
  }

  lemma OneBitOrNothing(w: bv64, m: bv64)
    requires OneBit(m)
    ensures And(w, m) == 0 || And(w, m) == m
  {
  }

  lemma OrAgrees(a: bv64, b: bv64, m: bv64, low: bv64)
    requires And(a, m) == And(b, m) && And(a, low) == And(b, low)
    ensures And(a, Or(low, m)) == And(b, Or(low, m))
  {
  }

  lemma LowStep(m: bv64)
    requires OneBit(m)
    ensures (m - 1) | m == (m << 1) - 1
  {
  }

  function LowBits(n: nat): bv64 { Or(Mask(n) - 1, Mask(n)) }

  lemma LowBitsStep(n: nat)
    requires n < 63
    ensures LowBits(n + 1) == Or(LowBits(n), Mask(n + 1))
  {
    hide Mask, Shifted;
    MaskIsOneBit(n);
    MaskSteps(n);
    LowStep(Mask(n));
  }

  lemma LowestBit()
    ensures LowBits(0) == Mask(0)
  {
  }

  lemma AllBits(a: bv64)
    ensures And(a, LowBits(63)) == a
  {
    hide Mask, Shifted;
    TopMask();
  }

  /** Words with the same bits up to `n` agree on those bits. */
  lemma {:induction false} SameLowBits(a: bv64, b: bv64, n: nat)
    requires n < 64
    requires forall i: nat | i <= n :: TestBit(a, i) <==> TestBit(b, i)
    ensures And(a, LowBits(n)) == And(b, LowBits(n))
  {
    hide Mask, Shifted, And, Or, LowBits, OneBit;
    assert TestBit(a, n) <==> TestBit(b, n);
    MaskIsOneBit(n);
    OneBitOrNothing(a, Mask(n));
    OneBitOrNothing(b, Mask(n));
    if n == 0 {
      LowestBit();
    } else {
      SameLowBits(a, b, n - 1);
      LowBitsStep(n - 1);
      OrAgrees(a, b, Mask(n), LowBits(n - 1));
    }
  }

  lemma SameBits(a: bv64, b: bv64)
    requires forall i: nat | i < 64 :: TestBit(a, i) <==> TestBit(b, i)
    ensures a == b
  {
    hide *;
    SameLowBits(a, b, 63);
    AllBits(a);
    AllBits(b);
  }

  // ----- sets

  lemma WordUpdate(words: seq<bv64>, pos: nat)
    requires pos < 64 * |words|
    ensures Members(words[pos / 64 := SetBit(words[pos / 64], pos % 64)]) == Members(words) + {pos}
    ensures Members(words[pos / 64 := ClearBit(words[pos / 64], pos % 64)]) == Members(words) - {pos}
  {
    hide TestBit, SetBit, ClearBit, Mask;
    var major, minor := pos / 64, pos % 64;
    SetThere(words[major], minor);
    ClearThere(words[major], minor);
    forall p: nat | p < 64 * |words|
      ensures Has(words[major := SetBit(words[major], minor)], p) <==> p == pos || Has(words, p)
      ensures Has(words[major := ClearBit(words[major], minor)], p) <==> p != pos && Has(words, p)
    {
      if p / 64 == major && p != pos {
        UpdateElsewhere(words[major], minor, p % 64);
      }
    }
  }

  /** Two bitsets of the same size with the same members are the same words. */
  lemma SameMembers(a: seq<bv64>, b: seq<bv64>)
    requires |a| == |b| && Members(a) == Members(b)
    ensures a == b
  {
    hide TestBit;
    forall k | 0 <= k < |a| ensures a[k] == b[k] {
      forall i: nat | i < 64 ensures TestBit(a[k], i) <==> TestBit(b[k], i) {
        var p := 64 * k + i;
        assert p / 64 == k && p % 64 == i;
        assert Has(a, p) <==> p in Members(a);
        assert Has(b, p) <==> p in Members(b);
      }
      SameBits(a[k], b[k]);
    }
  }

  /** Equal sets have equal hashes. */
  lemma SameHash(a: seq<bv64>, b: seq<bv64>)
    requires |a| == |b| && Members(a) == Members(b)
    ensures HashOf(a) == HashOf(b)
  {
    hide HashOf, Members;
    SameMembers(a, b);
  }

  // ----- counting

  function OnesBelow(w: bv64, n: nat): nat {
    if n == 0 then 0 else OnesBelow(w, n - 1) + if TestBit(w, n - 1) then 1 else 0
  }

  lemma HalvesAgree(w: bv64, m: bv64)
    requires And(m, 0x8000_0000_0000_0000) == 0
    ensures And(w, Double(m)) != 0 <==> And(Halve(w), m) != 0
  {
  }

  lemma BitHalved(w: bv64, i: nat)
    requires i < 63
    ensures TestBit(w, i + 1) <==> TestBit(Halve(w), i)
  {
    hide And, Halve, Double, Mask;
    MaskDoubles(i);
    Disjoint(i, 63);
    TopMask();
    HalvesAgree(w, Mask(i));
  }

  lemma LowestTested(w: bv64)
    ensures TestBit(w, 0) <==> And(w, 1) != 0
  {
    hide And, Mask;
    MaskDoubles(0);
  }

  lemma {:induction false} OnesBelowHalved(w: bv64, n: nat)
    requires n <= 63
    ensures OnesBelow(w, n + 1) == (if TestBit(w, 0) then 1 else 0) + OnesBelow(Halve(w), n)
  {
    hide TestBit, Halve;
    if n > 0 {
      OnesBelowHalved(w, n - 1);
      BitHalved(w, n - 1);
    }
  }

  lemma {:induction false} OnesAreBelow(w: bv64, n: nat)
    requires n <= 64
    ensures Ones(w, n) == OnesBelow(w, n)
    decreases n
  {
    hide And, TestBit, Halve;
    if n > 0 {
      OnesAreBelow(Halve(w), n - 1);
      OnesBelowHalved(w, n - 1);
      LowestTested(w);
    }
  }

  ghost function MembersBelow(words: seq<bv64>, p: nat): set<nat> {
    set q: nat | q < p && Has(words, q)
  }

  lemma HasAt(words: seq<bv64>, k: nat, i: nat)
    requires k < |words| && i < 64
    ensures Has(words, 64 * k + i) <==> TestBit(words[k], i)
  {
    hide TestBit;
    assert (64 * k + i) / 64 == k && (64 * k + i) % 64 == i;
  }

  lemma OneMore(words: seq<bv64>, p: nat)
    ensures |MembersBelow(words, p + 1)| == |MembersBelow(words, p)| + if Has(words, p) then 1 else 0
  {
    hide Has;
    var before, now := MembersBelow(words, p), MembersBelow(words, p + 1);
    if Has(words, p) { assert now == before + {p}; } else { assert now == before; }
  }

  lemma {:induction false} CountInWord(words: seq<bv64>, k: nat, i: nat)
    requires k < |words| && i <= 64
    ensures |MembersBelow(words, 64 * k + i)| == |MembersBelow(words, 64 * k)| + OnesBelow(words[k], i)
  {
    hide TestBit, Has, MembersBelow;
    if i > 0 {
      CountInWord(words, k, i - 1);
      HasAt(words, k, i - 1);
      OneMore(words, 64 * k + i - 1);
    }
  }

  lemma {:induction false} CountUpTo(words: seq<bv64>, k: nat)
    requires k <= |words|
    ensures |MembersBelow(words, 64 * k)| == PopulationCount(words[..k])
  {
    hide Ones, OnesBelow, Has;
    if k == 0 {
      assert MembersBelow(words, 0) == {};
    } else {
      CountUpTo(words, k - 1);
      CountInWord(words, k - 1, 64);
      OnesAreBelow(words[k - 1], 64);
      assert words[..k][..k - 1] == words[..k - 1];
    }
  }

  /** Adding up the words' bits counts the members. */
  lemma CountIsSize(words: seq<bv64>)
    ensures PopulationCount(words) == |Members(words)|
  {
    hide Ones;
    CountUpTo(words, |words|);
    assert words[..|words|] == words;
    assert Members(words) == MembersBelow(words, 64 * |words|);
  }

  lemma NoMembers(words: seq<bv64>)
    requires forall k | 0 <= k < |words| :: words[k] == 0
    ensures Members(words) == {}
  {
  }

  method NewBitset(bits: nat) returns (b: array<bv64>)
    ensures fresh(b) && Members(b[..]) == {} && bits <= 64 * b.Length < bits + 64
  {
    var extra := if bits % 64 != 0 then 1 else 0;
    b := new bv64[bits / 64 + extra](_ => 0);
    NoMembers(b[..]);
  }

  method Clone(b: array<bv64>) returns (c: array<bv64>)
    ensures fresh(c) && c[..] == b[..]
  {
    c := new bv64[b.Length](i requires 0 <= i < b.Length reads b => b[i]);
  }

  method Set(b: array<bv64>, pos: nat) returns (r: array<bv64>)
    requires pos < 64 * b.Length
    modifies b
    ensures r == b && Members(b[..]) == old(Members(b[..])) + {pos}
  {
    hide TestBit, SetBit;
    WordUpdate(b[..], pos);
    b[pos / 64] := SetBit(b[pos / 64], pos % 64);
    assert b[..] == old(b[..])[pos / 64 := SetBit(old(b[pos / 64]), pos % 64)];
    r := b;
  }

  method Clear(b: array<bv64>, pos: nat) returns (r: array<bv64>)
    requires pos < 64 * b.Length
    modifies b
    ensures r == b && Members(b[..]) == old(Members(b[..])) - {pos}
  {
    hide TestBit, ClearBit;
    WordUpdate(b[..], pos);
    b[pos / 64] := ClearBit(b[pos / 64], pos % 64);
    assert b[..] == old(b[..])[pos / 64 := ClearBit(old(b[pos / 64]), pos % 64)];
    r := b;
  }

  method Get(b: array<bv64>, pos: nat) returns (r: bool)
    requires pos < 64 * b.Length
    ensures r <==> pos in Members(b[..])
  {
    hide TestBit;
    r := TestBit(b[pos / 64], pos % 64);
  }

  method Popcnt(b: array<bv64>) returns (total: nat)
    ensures total == |Members(b[..])| && total == PopulationCount(b[..])
  {
    hide Ones, Members;
    total := 0;
    for i := 0 to b.Length
      invariant total == PopulationCount(b[..i])
    {
      assert b[..i + 1][..i] == b[..i];
      total := total + Ones(b[i], 64);
    }
    assert b[..b.Length] == b[..];
    CountIsSize(b[..]);
  }

  // ----- what the hash depends on

  function Xor(a: bv64, b: bv64): bv64 { a ^ b }

  lemma XorLast(seed: bv64, words: seq<bv64>)
    requires words != []
    ensures XorAll(seed, words) == Xor(XorAll(seed, words[..|words| - 1]), words[|words| - 1])
  {
  }

  lemma {:induction false} XorUpdate(seed: bv64, words: seq<bv64>, k: nat, v: bv64)
    requires k < |words|
    ensures XorAll(seed, words[k := v]) == Xor(Xor(XorAll(seed, words), words[k]), v)
    decreases |words|
  {
    hide XorAll, Xor;
    var n := |words| - 1;
    var front := words[..n];
    XorLast(seed, words);
    XorLast(seed, words[k := v]);
    if k < n {
      XorUpdate(seed, front, k, v);
      assert words[k := v][..n] == front[k := v];
      XorSwap(XorAll(seed, front), words[k], v, words[n]);
    } else {
      assert words[k := v][..n] == front;
      XorBack(XorAll(seed, front), words[k], v);
    }
  }

  lemma XorCommutes(a: bv64, b: bv64)
    ensures Xor(a, b) == Xor(b, a)
  {
  }

  lemma XorAssociates(a: bv64, b: bv64, c: bv64)
    ensures Xor(Xor(a, b), c) == Xor(a, Xor(b, c))
  {
  }

  lemma XorSwap(x: bv64, a: bv64, b: bv64, c: bv64)
    ensures Xor(Xor(Xor(x, a), b), c) == Xor(Xor(Xor(x, c), a), b)
  {
    hide Xor;
    XorLater(Xor(x, a), b, c);
    XorLater(x, a, c);
  }

  lemma XorLater(x: bv64, a: bv64, b: bv64)
    ensures Xor(Xor(x, a), b) == Xor(Xor(x, b), a)
  {
    hide Xor;
    XorAssociates(x, a, b);
    XorCommutes(a, b);
    XorAssociates(x, b, a);
  }

  lemma XorBack(x: bv64, a: bv64, b: bv64)
    ensures Xor(Xor(Xor(x, a), a), b) == Xor(x, b)
  {
  }

  lemma {:induction false} XorSeed(seed: bv64, other: bv64, words: seq<bv64>)
    ensures XorAll(seed, words) == Xor(Xor(XorAll(other, words), seed), other)
    decreases |words|
  {
    hide XorAll, Xor;
    if words == [] {
      NoXor(seed, other);
    } else {
      XorSeed(seed, other, words[..|words| - 1]);
      XorLast(seed, words);
      XorLast(other, words);
      XorSwap(XorAll(other, words[..|words| - 1]), seed, other, words[|words| - 1]);
    }
  }

  lemma NoXor(seed: bv64, other: bv64)
    ensures XorAll(seed, []) == seed && Xor(Xor(XorAll(other, []), seed), other) == seed
  {
  }

  /** When one word changes, the hash changes by this word and by the number of members. */
  lemma HashUpdate(words: seq<bv64>, k: nat, v: bv64)
    requires k < |words|
    ensures var now := words[k := v];
      Xor(HashOf(now), HashOf(words)) ==
        Xor(Xor(words[k], v), Xor(ToWord(PopulationCount(words)), ToWord(PopulationCount(now))))
  {
    hide XorAll, Xor, PopulationCount, ToWord;
    var now := words[k := v];
    var a, b := ToWord(PopulationCount(words)), ToWord(PopulationCount(now));
    XorSeed(b, a, now);
    XorUpdate(a, words, k, v);
    XorDifference(XorAll(a, words), words[k], v, a, b);
  }

  lemma XorDifference(x: bv64, w: bv64, v: bv64, a: bv64, b: bv64)
    ensures Xor(Xor(Xor(Xor(Xor(x, w), v), b), a), x) == Xor(Xor(w, v), Xor(a, b))
  {
    hide Xor;
    XorAssociates(Xor(Xor(x, w), v), b, a);
    XorCommutes(a, b);
    XorAssociates(x, w, v);
    XorAssociates(x, Xor(w, v), Xor(a, b));
    XorOut(x, Xor(Xor(w, v), Xor(a, b)));
  }

  lemma XorOut(x: bv64, a: bv64)
    ensures Xor(Xor(x, a), x) == a
  {
  }

  lemma {:induction false} HashOfEmpty(n: nat)
    ensures HashOf(seq(n, _ => 0 as bv64)) == 0
  {
    EmptyCount(n);
    EmptyXor(n);
  }

  lemma {:induction false} EmptyXor(n: nat)
    ensures XorAll(0, seq(n, _ => 0 as bv64)) == 0
  {
    if n > 0 {
      EmptyXor(n - 1);
      assert seq(n, _ => 0 as bv64)[..n - 1] == seq(n - 1, _ => 0 as bv64);
    }
  }

  lemma {:induction false} EmptyCount(n: nat)
    ensures PopulationCount(seq(n, _ => 0 as bv64)) == 0
  {
    if n > 0 {
      EmptyCount(n - 1);
      assert seq(n, _ => 0 as bv64)[..n - 1] == seq(n - 1, _ => 0 as bv64);
      NoOnes(64);
    }
  }

  lemma {:induction false} NoOnes(n: nat)
    ensures Ones(0, n) == 0
  {
    if n > 0 { NoOnes(n - 1); }
  }

  method Hash(b: array<bv64>) returns (hash: bv64)
    ensures hash == HashOf(b[..])
  {
    hide PopulationCount, ToWord;
    var total := Popcnt(b);
    hash := ToWord(total);
    ghost var seed := hash;
    for i := 0 to b.Length
      invariant hash == XorAll(seed, b[..i])
    {
      assert b[..i + 1][..i] == b[..i];
      hash := hash ^ b[i];
    }
    assert b[..b.Length] == b[..];
  }

  method Equals(b: array<bv64>, b2: array<bv64>) returns (r: bool)
    ensures r <==> b[..] == b2[..]
  {
    if b.Length != b2.Length {
      return false;
    }
    for i := 0 to b.Length
      invariant b[..i] == b2[..i]
    {
      if b[i] != b2[i] {
        return false;
      }
    }
    r := true;
    assert b[..] == b[..b.Length] && b2[..] == b2[..b2.Length];
  }
}
