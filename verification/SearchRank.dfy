/**
 * Why the search ends. The cursor positions of all stack levels are the digits of a number;
 * moving a cursor on, opening a level at the front, or closing a level and moving on all make it smaller.
 */
module SearchRank {

  /** The largest number of `levels` digits, each at most `n`. */
  ghost function Largest(n: nat, levels: nat): nat {
    if levels == 0 then 0 else n * (Largest(n, levels - 1) + 1) + Largest(n, levels - 1)
  }

  /** A level whose cursor is at position p has digit n - p; levels that are not open have digit n. */
  ghost function Rank(n: nat, positions: seq<nat>, levels: nat): int
    decreases levels
  {
    if levels == 0 then 0
    else if positions == [] then Largest(n, levels)
    else (n - positions[0]) * (Largest(n, levels - 1) + 1) + Rank(n, positions[1..], levels - 1)
  }

  ghost predicate Within(n: nat, positions: seq<nat>) {
    forall i | 0 <= i < |positions| :: positions[i] <= n
  }

  lemma MulMono(a: int, b: int, c: nat)
    requires a <= b
    ensures a * c <= b * c
  {
  }

  lemma {:induction false} RankBounds(n: nat, positions: seq<nat>, levels: nat)
    requires Within(n, positions)
    ensures 0 <= Rank(n, positions, levels) <= Largest(n, levels)
    decreases levels
  {
    if levels > 0 && positions != [] {
      RankBounds(n, positions[1..], levels - 1);
      MulMono(0, n - positions[0], Largest(n, levels - 1) + 1);
      MulMono(n - positions[0], n, Largest(n, levels - 1) + 1);
    }
  }

  lemma {:induction false} CommonPrefix(n: nat, front: seq<nat>, a: seq<nat>, b: seq<nat>, levels: nat)
    requires |front| <= levels && Rank(n, a, levels - |front|) < Rank(n, b, levels - |front|)
    ensures Rank(n, front + a, levels) < Rank(n, front + b, levels)
    decreases |front|
  {
    if front == [] {
      assert front + a == a && front + b == b;
    } else {
      CommonPrefix(n, front[1..], a, b, levels - 1);
      assert (front + a)[1..] == front[1..] + a && (front + b)[1..] == front[1..] + b;
    }
  }

  /** Moving the innermost cursor on, whatever was open inside it. */
  lemma MoveOnSmaller(n: nat, front: seq<nat>, p: nat, inner: seq<nat>, q: nat, levels: nat)
    requires |front| < levels && p < q <= n && Within(n, inner)
    ensures Rank(n, front + [q], levels) < Rank(n, front + [p] + inner, levels)
  {
    var rest := levels - |front| - 1;
    RankBounds(n, inner, rest);
    assert ([p] + inner)[1..] == inner && [q][1..] == [];
    MulMono(1, (n - p) - (n - q), Largest(n, rest) + 1);
    MulDiff(n - p, n - q, Largest(n, rest) + 1);
    CommonPrefix(n, front, [q], [p] + inner, levels);
    assert front + [p] + inner == front + ([p] + inner);
  }

  lemma MulDiff(a: int, b: int, c: int)
    ensures (a - b) * c == a * c - b * c
  {
  }

  /** Opening one more level, its cursor anywhere but at the list head. */
  lemma OpenSmaller(n: nat, front: seq<nat>, q: nat, levels: nat)
    requires |front| < levels && 1 <= q <= n
    ensures Rank(n, front + [q], levels) < Rank(n, front, levels)
  {
    var rest := levels - |front| - 1;
    assert [q][1..] == [];
    MulMono(1, n - (n - q), Largest(n, rest) + 1);
    MulDiff(n, n - q, Largest(n, rest) + 1);
    CommonPrefix(n, front, [q], [], levels);
    assert front + [] == front;
  }
}
