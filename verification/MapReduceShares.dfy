/** The accepted files of a reduce task hold, between them, exactly the pairs it must reduce. */
module MapReduceShares {
  import opened Grouping
  import opened Buckets
  import opened MapReduceJob
  import opened MapReduceInvariant

  ghost predicate InJob(job: Job, accepted: seq<(int, nat)>) {
    job.nReduce > 0 && forall k | 0 <= k < |accepted| :: accepted[k].1 < Maps(job)
  }

  lemma FilesSnoc(job: Job, a: seq<(int, nat)>, e: (int, nat), r: nat)
    requires InJob(job, a) && e.1 < Maps(job)
    ensures InJob(job, a + [e])
    ensures FilesFor(job, a + [e], r) == FilesFor(job, a, r) +
        (if Share(job, e.1, r) == [] then [] else [Intermediate(e.0, e.1, r)])
    ensures PairsFor(job, a + [e], r) == PairsFor(job, a, r) + Share(job, e.1, r)
  {
    hide Share;
    assert (a + [e])[..|a|] == a;
  }

  lemma {:induction false} FilesForAt(job: Job, a: seq<(int, nat)>, r: nat, i: nat) returns (k: nat)
    requires InJob(job, a) && i < |FilesFor(job, a, r)|
    ensures k < |a| && FilesFor(job, a, r)[i] == Intermediate(a[k].0, a[k].1, r) && Share(job, a[k].1, r) != []
    decreases |a|
  {
    hide Share;
    var n := |a| - 1;
    if i < |FilesFor(job, a[..n], r)| {
      k := FilesForAt(job, a[..n], r, i);
    } else {
      k := n;
    }
  }

  lemma PairsInSnoc(job: Job, names: seq<FileName>, n: FileName)
    requires job.nReduce > 0
    ensures PairsIn(job, names + [n]) == PairsIn(job, names) +
        (if n.Intermediate? && n.task < Maps(job) then Share(job, n.task, n.bucket) else [])
  {
    hide Share;
    assert (names + [n])[..|names|] == names;
  }

  /** Reading the whole list gives the accepted pairs. */
  lemma {:induction false} PairsInFiles(job: Job, a: seq<(int, nat)>, r: nat)
    requires InJob(job, a)
    ensures PairsIn(job, FilesFor(job, a, r)) == PairsFor(job, a, r)
    decreases |a|
  {
    hide Share;
    if a != [] {
      var b, e := a[..|a| - 1], a[|a| - 1];
      PairsInFiles(job, b, r);
      FilesSnoc(job, b, e, r);
      assert a == b + [e] && PairsFor(job, b, r) + [] == PairsFor(job, b, r) &&
          FilesFor(job, b, r) + [] == FilesFor(job, b, r);
      if Share(job, e.1, r) != [] {
        PairsInSnoc(job, FilesFor(job, b, r), Intermediate(e.0, e.1, r));
      }
    }
  }

  lemma NoReports(job: Job, r: nat)
    requires job.nReduce > 0
    ensures InJob(job, []) && PairsFor(job, [], r) == []
  {
  }

  lemma {:induction false} PairsForSplit(job: Job, a: seq<(int, nat)>, b: seq<(int, nat)>, r: nat)
    requires InJob(job, a) && InJob(job, b)
    ensures InJob(job, a + b) && PairsFor(job, a + b, r) == PairsFor(job, a, r) + PairsFor(job, b, r)
    decreases |b|
  {
    hide Share, PairsFor, FilesFor;
    if b == [] {
      assert a + b == a;
      NoReports(job, r);
    } else {
      var c, e := b[..|b| - 1], b[|b| - 1];
      PairsForSplit(job, a, c, r);
      FilesSnoc(job, a + c, e, r);
      FilesSnoc(job, c, e, r);
      assert a + b == (a + c) + [e];
      assert b == c + [e];
    }
  }

  /** The reports are those of the first k map tasks, each once. */
  ghost predicate Covers(a: seq<(int, nat)>, k: nat) {
    && (forall i | 0 <= i < |a| :: a[i].1 < k)
    && (forall i, j | 0 <= i < j < |a| :: a[i].1 != a[j].1)
    && (forall t: nat | t < k :: Has(a, t))
  }

  ghost predicate Has(a: seq<(int, nat)>, t: nat) {
    exists i :: 0 <= i < |a| && a[i].1 == t
  }

  lemma CoversLess(a: seq<(int, nat)>, k: nat, j: nat)
    requires k > 0 && Covers(a, k) && j < |a| && a[j].1 == k - 1
    ensures Covers(a[..j] + a[j + 1..], k - 1)
  {
    var b := a[..j] + a[j + 1..];
    assert forall i | 0 <= i < |b| :: b[i] == a[if i < j then i else i + 1];
    forall t: nat | t < k - 1 ensures Has(b, t) {
      assert Has(a, t);
      var i :| 0 <= i < |a| && a[i].1 == t;
      assert b[if i < j then i else i - 1].1 == t;
    }
  }

  /** The pairs of all reports are those of report j and those of the others. */
  lemma PairsAround(job: Job, a: seq<(int, nat)>, j: nat, r: nat)
    requires j < |a| && 0 <= a[j].1 < Maps(job) && InJob(job, a[..j] + a[j + 1..])
    ensures InJob(job, a)
    ensures multiset(PairsFor(job, a, r)) == multiset(PairsFor(job, a[..j] + a[j + 1..], r)) +
        multiset(Share(job, a[j].1, r))
  {
    hide Share, PairsFor;
    var front, back := a[..j], a[j + 1..];
    PartsInJob(job, front, back);
    assert a == front + [a[j]] + back;
    PairsForSplit(job, front, back, r);
    FilesSnoc(job, front, a[j], r);
    PairsForSplit(job, front + [a[j]], back, r);
    MiddleMultiset(PairsFor(job, front, r), Share(job, a[j].1, r), PairsFor(job, back, r));
  }

  lemma PartsInJob(job: Job, a: seq<(int, nat)>, b: seq<(int, nat)>)
    requires InJob(job, a + b)
    ensures InJob(job, a) && InJob(job, b)
  {
    assert forall i | 0 <= i < |a| :: a[i] == (a + b)[i];
    assert forall i | 0 <= i < |b| :: b[i] == (a + b)[|a| + i];
  }

  lemma {:induction false} PairsOfCovering(job: Job, a: seq<(int, nat)>, k: nat, r: nat)
    requires job.nReduce > 0 && k <= Maps(job) && Covers(a, k)
    ensures InJob(job, a) &&
        multiset(PairsFor(job, a, r)) == multiset(Bucket(job.app, EmittedUpTo(job, k), job.nReduce, r))
    decreases k
  {
    hide Share, PairsFor, Bucket, EmittedUpTo, Emitted, InJob;
    if k == 0 {
      NothingEmitted(job, r);
      assert a == [];
    } else {
      assert Has(a, k - 1);
      var j :| 0 <= j < |a| && a[j].1 == k - 1;
      var front, back := a[..j], a[j + 1..];
      CoversLess(a, k, j);
      PairsOfCovering(job, front + back, k - 1, r);
      PairsAround(job, a, j, r);
      OneMoreEmitted(job, k, r);
    }
  }

  lemma NothingEmitted(job: Job, r: nat)
    requires job.nReduce > 0
    ensures InJob(job, []) && PairsFor(job, [], r) == [] && Bucket(job.app, EmittedUpTo(job, 0), job.nReduce, r) == []
  {
  }

  lemma OneMoreEmitted(job: Job, k: nat, r: nat)
    requires job.nReduce > 0 && 0 < k <= Maps(job)
    ensures Bucket(job.app, EmittedUpTo(job, k), job.nReduce, r) ==
      Bucket(job.app, EmittedUpTo(job, k - 1), job.nReduce, r) + Share(job, k - 1, r)
  {
    hide Bucket;
    BucketOfConcat(job.app, EmittedUpTo(job, k - 1), Emitted(job, k - 1), job.nReduce, r);
  }

  lemma MiddleMultiset<T>(x: seq<T>, s: seq<T>, y: seq<T>)
    ensures multiset(x + s + y) == multiset(x + y) + multiset(s)
  {
  }

  /** Once all map tasks are done, a reduce task's list holds exactly its pairs. */
  lemma AcceptedPairs(job: Job, g: Shared, r: nat)
    requires job.nReduce > 0 && AcceptedOk(job, g) && MapsDone(job, g)
    ensures InJob(job, g.accepted)
    ensures multiset(PairsFor(job, g.accepted, r)) == multiset(ShareOfAll(job, r))
  {
    hide HoldsShare, Committed, Share;
    forall t: nat | t < Maps(job) ensures Has(g.accepted, t) {
      assert Committed(g, t);
      assert IsAccepted(g, t);
    }
    PairsOfCovering(job, g.accepted, Maps(job), r);
  }

  /** The lines a worker makes from them are the right ones, however it sorted them. */
  lemma LinesAreGood(job: Job, g: Shared, r: nat, content: seq<KeyValue>, lines: seq<Line>)
    requires WellFormed(job) && AcceptedOk(job, g) && MapsDone(job, g)
    requires InJob(job, g.accepted) && content == PairsFor(job, g.accepted, r) && LinesOf(job.app, content, lines)
    ensures GoodLines(job, r, lines)
  {
    hide AcceptedOk, MapsDone, PairsFor, ExpectedLines, Groups, SortedByKey, OrderBlind;
    AcceptedPairs(job, g, r);
    var sorted :| SortedByKey(sorted) && multiset(sorted) == multiset(content) && lines == Groups(job.app, sorted);
    GroupsAreExpected(job.app, sorted);
    SamePairsSameLines(job.app, sorted, ShareOfAll(job, r));
  }

  /** The next file of the list can be read, and holds its share. */
  lemma NextReadable(job: Job, g: Shared, r: nat, k: nat)
    requires job.nReduce > 0 && AcceptedOk(job, g) && ListsOk(job, g) && r < job.nReduce &&
        k < |ReduceTask(job, g, r).files|
    ensures var n := ReduceTask(job, g, r).files[k];
      && n.Intermediate? && n.task < Maps(job) && n.bucket == r
      && n in g.files && g.files[n] == Pairs(Share(job, n.task, r))
  {
    hide Share;
    var i := FilesForAt(job, g.accepted, r, k);
    assert HoldsShare(job, g, g.accepted[i].0, g.accepted[i].1, r);
  }
}
