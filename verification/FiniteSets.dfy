/** Sequences of distinct elements and the sizes of the sets they make up. */
module FiniteSets {

  ghost predicate InRange(p: seq<nat>, n: nat) {
    forall i | 0 <= i < |p| :: p[i] < n
  }

  ghost predicate Distinct<T>(p: seq<T>) {
    forall i, j | 0 <= i < j < |p| :: p[i] != p[j]
  }

  ghost function SetOf<T>(p: seq<T>): (s: set<T>) {
    set x | x in p
  }

  lemma SetOfSnoc<T>(p: seq<T>, x: T)
    ensures SetOf(p + [x]) == SetOf(p) + {x}
  {
  }

  lemma {:induction false} DistinctSetSize<T>(p: seq<T>)
    requires Distinct(p)
    ensures |SetOf(p)| == |p|
  {
    if p != [] {
      var q, x := p[..|p| - 1], p[|p| - 1];
      assert p == q + [x];
      DistinctSetSize(q);
      SetOfSnoc(q, x);
      assert x !in q;
    }
  }

  lemma BoundedSetSize(s: set<nat>, n: nat)
    requires forall x | x in s :: x < n
    ensures |s| <= n
    ensures |s| == n ==> forall x: nat | x < n :: x in s
    decreases n
  {
    if n > 0 {
      var t := s - {n - 1};
      BoundedSetSize(t, n - 1);
      if n - 1 in s {
        assert s == t + {n - 1};
      } else {
        assert s == t;
      }
    } else {
      assert s == {};
    }
  }

  /** Distinct numbers below `n`, as many as `n`, are all of them. */
  lemma FullIsOnto(p: seq<nat>, n: nat)
    requires InRange(p, n) && Distinct(p)
    ensures |p| <= n
    ensures |p| == n ==> forall x: nat | x < n :: x in p
  {
    DistinctSetSize(p);
    BoundedSetSize(SetOf(p), n);
    assert forall x :: x in SetOf(p) <==> x in p;
  }

  /** The numbers below `n`. */
  ghost function Below(n: nat): (s: set<nat>)
    ensures forall x: nat :: x in s <==> x < n
    ensures |s| == n
  {
    if n == 0 then {} else Below(n - 1) + {n - 1}
  }

  lemma OntoIsFull(p: seq<nat>, n: nat)
    requires InRange(p, n) && Distinct(p)
    requires forall x: nat | x < n :: x in p
    ensures |p| == n
  {
    assert SetOf(p) == Below(n);
    DistinctSetSize(p);
  }

  lemma {:induction false} SubsetSize<T>(a: set<T>, b: set<T>)
    requires a <= b
    ensures |a| <= |b|
    ensures |a| == |b| ==> a == b
  {
    if a != {} {
      var x :| x in a;
      SubsetSize(a - {x}, b - {x});
      assert a == (a - {x}) + {x};
    }
  }

  ghost predicate Injective<T>(a: set<T>, f: map<T, T>) {
    a <= f.Keys && forall x, y | x in a && y in a && x != y :: f[x] != f[y]
  }

  ghost function Image<T>(a: set<T>, f: map<T, T>): set<T>
    requires a <= f.Keys
  {
    set x | x in a :: f[x]
  }

  lemma {:induction false} ImageSize<T>(a: set<T>, f: map<T, T>)
    requires Injective(a, f)
    ensures |Image(a, f)| == |a|
  {
    if a != {} {
      var x :| x in a;
      var b := a - {x};
      ImageSize(b, f);
      assert Image(a, f) == Image(b, f) + {f[x]};
    }
  }

  lemma ImageInside<T>(f: map<T, T>)
    requires forall z {:trigger f[z]} | z in f :: f[z] in f
    ensures Image(f.Keys, f) <= f.Keys
  {
  }

  /** A function from a finite set to itself that takes no value twice takes every value. */
  lemma InjectiveIsOnto<T>(f: map<T, T>, x: T) returns (y: T)
    requires forall z {:trigger f[z]} | z in f :: f[z] in f
    requires Injective(f.Keys, f) && x in f
    ensures y in f && f[y] == x
  {
    ImageInside(f);
    y := Preimage(f, x) by { hide Injective, Image; ImageSize(f.Keys, f); SubsetSize(Image(f.Keys, f), f.Keys); }
  }

  lemma Preimage<T>(f: map<T, T>, x: T) returns (y: T)
    requires x in Image(f.Keys, f)
    ensures y in f && f[y] == x
  {
    y :| y in f && f[y] == x;
  }
}
