/** The order of strings, as the sorts of the repository use it. */
module Strings {

  predicate StringLess(a: string, b: string) {
    b != [] && (a == [] || a[0] < b[0] || (a[0] == b[0] && StringLess(a[1..], b[1..])))
  }

  /**
   * At the first place where they differ, or where one ends, a has ended and b has not, or a's character is the less.
   */
  ghost predicate LessAt(a: string, b: string, i: nat) {
    && i <= |a| && i <= |b| && a[..i] == b[..i]
    && i < |b| && (i == |a| || a[i] < b[i])
  }

  lemma {:induction false} StringLessIff(a: string, b: string)
    ensures StringLess(a, b) <==> exists i: nat :: LessAt(a, b, i)
  {
    if a == [] || b == [] || a[0] != b[0] {
      if StringLess(a, b) { assert LessAt(a, b, 0); }
      if i: nat :| LessAt(a, b, i) && i > 0 { assert a[..i][0] == b[..i][0]; }
    } else {
      StringLessIff(a[1..], b[1..]);
      if StringLess(a, b) {
        var i: nat :| LessAt(a[1..], b[1..], i);
        LessOneLater(a, b, i);
      }
      if i: nat :| LessAt(a, b, i) { LessOneEarlier(a, b, i); }
    }
  }

  lemma LessOneLater(a: string, b: string, i: nat)
    requires a != [] && b != [] && a[0] == b[0] && LessAt(a[1..], b[1..], i)
    ensures LessAt(a, b, i + 1)
  {
    assert a[..i + 1] == [a[0]] + a[1..][..i] && b[..i + 1] == [b[0]] + b[1..][..i];
  }

  lemma LessOneEarlier(a: string, b: string, i: nat)
    requires a != [] && b != [] && a[0] == b[0] && LessAt(a, b, i)
    ensures i > 0 && LessAt(a[1..], b[1..], i - 1)
  {
    assert a[1..][..i - 1] == a[..i][1..] && b[1..][..i - 1] == b[..i][1..];
  }

  lemma {:induction false} LessIsTransitive(a: string, b: string, c: string)
    requires StringLess(a, b) && StringLess(b, c)
    ensures StringLess(a, c)
  {
    if a != [] && a[0] == b[0] && b[0] == c[0] {
      LessIsTransitive(a[1..], b[1..], c[1..]);
    }
  }

  lemma {:induction false} LessIsTotal(a: string, b: string)
    ensures StringLess(a, b) || a == b || StringLess(b, a)
    ensures !(StringLess(a, b) && StringLess(b, a)) && !(a == b && StringLess(a, b))
  {
    if a != [] && b != [] && a[0] == b[0] {
      LessIsTotal(a[1..], b[1..]);
      assert a == [a[0]] + a[1..] && b == [b[0]] + b[1..];
    }
  }

  /** Strictly ascending, so without repetition. */
  ghost predicate Ascending(s: seq<string>) {
    forall i, j | 0 <= i < j < |s| :: StringLess(s[i], s[j])
  }
}
