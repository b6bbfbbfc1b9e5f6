/** How a map task distributes its pairs over the reduce tasks, and why reducing by bucket loses nothing. */
module Buckets {
  import opened Grouping

  /** The reduce task, of n, that a key belongs to. */
  function BucketOf(app: App, key: string, n: nat): (b: nat)
    requires n > 0
    ensures b < n
  {
    app.ihash(key) % n
  }

  /** The pairs that go to reduce task b of n. */
  function Bucket(app: App, s: seq<KeyValue>, n: nat, b: nat): seq<KeyValue>
    requires n > 0
  {
    if s == [] then []
    else Bucket(app, s[..|s| - 1], n, b) + (if BucketOf(app, s[|s| - 1].key, n) == b then [s[|s| - 1]] else [])
  }

  lemma BucketSnoc(app: App, s: seq<KeyValue>, e: KeyValue, n: nat, b: nat)
    requires n > 0
    ensures Bucket(app, s + [e], n, b) == Bucket(app, s, n, b) + (if BucketOf(app, e.key, n) == b then [e] else [])
  {
    assert (s + [e])[..|s|] == s;
  }

  /** The map task's loop: a list for each reduce task that gets at least one pair. */
  method MapPartition(app: App, mapResult: seq<KeyValue>, nReduce: nat) returns (outputLists: map<nat, seq<KeyValue>>)
    requires nReduce > 0
    ensures forall b: nat :: b in outputLists <==> Bucket(app, mapResult, nReduce, b) != []
    ensures forall b | b in outputLists :: b < nReduce && outputLists[b] == Bucket(app, mapResult, nReduce, b)
    ensures forall b, kv | b in outputLists && kv in outputLists[b] :: app.ihash(kv.key) % nReduce == b
  {
    hide Bucket;
    outputLists := map[];
    EmptyBuckets(app, nReduce);
    for i := 0 to |mapResult|
      invariant forall b: nat :: b in outputLists <==> Bucket(app, mapResult[..i], nReduce, b) != []
      invariant forall b | b in outputLists :: b < nReduce && outputLists[b] == Bucket(app, mapResult[..i], nReduce, b)
    {
      forall b: nat
        ensures Bucket(app, mapResult[..i + 1], nReduce, b) ==
          Bucket(app, mapResult[..i], nReduce, b) +
              (if BucketOf(app, mapResult[i].key, nReduce) == b then [mapResult[i]] else [])
      {
        BucketSnoc(app, mapResult[..i], mapResult[i], nReduce, b);
        assert mapResult[..i + 1] == mapResult[..i] + [mapResult[i]];
      }
      var indexOfFile := BucketOf(app, mapResult[i].key, nReduce);
      if indexOfFile !in outputLists {
        outputLists := outputLists[indexOfFile := []];
      }
      outputLists := outputLists[indexOfFile := outputLists[indexOfFile] + [mapResult[i]]];
    }
    assert mapResult[..|mapResult|] == mapResult;
    BucketsConserve(app, mapResult, nReduce);
  }

  lemma EmptyBuckets(app: App, n: nat)
    requires n > 0
    ensures forall b: nat :: Bucket(app, [], n, b) == []
  {
  }

  lemma {:induction false} BucketCount(app: App, s: seq<KeyValue>, n: nat, b: nat, kv: KeyValue)
    requires n > 0
    ensures multiset(Bucket(app, s, n, b))[kv] == if BucketOf(app, kv.key, n) == b then multiset(s)[kv] else 0
  {
    if s != [] {
      var e := s[|s| - 1];
      BucketCount(app, s[..|s| - 1], n, b, kv);
      assert s == s[..|s| - 1] + [e];
    }
  }

  /** The pairs in the first k buckets. */
  ghost function FirstBuckets(app: App, s: seq<KeyValue>, n: nat, k: nat): multiset<KeyValue>
    requires n > 0
  {
    if k == 0 then multiset{} else FirstBuckets(app, s, n, k - 1) + multiset(Bucket(app, s, n, k - 1))
  }

  lemma {:induction false} FirstBucketsCount(app: App, s: seq<KeyValue>, n: nat, k: nat, kv: KeyValue)
    requires n > 0
    ensures FirstBuckets(app, s, n, k)[kv] == if BucketOf(app, kv.key, n) < k then multiset(s)[kv] else 0
  {
    hide BucketOf, Bucket;
    if k > 0 {
      FirstBucketsCount(app, s, n, k - 1, kv);
      BucketCount(app, s, n, k - 1, kv);
    }
  }

  /** The buckets together hold exactly the emitted pairs, and each pair is in the bucket of its key only. */
  lemma BucketsConserve(app: App, s: seq<KeyValue>, n: nat)
    requires n > 0
    ensures FirstBuckets(app, s, n, n) == multiset(s)
    ensures forall b: nat, kv | kv in Bucket(app, s, n, b) :: BucketOf(app, kv.key, n) == b
  {
    forall kv ensures FirstBuckets(app, s, n, n)[kv] == multiset(s)[kv] {
      FirstBucketsCount(app, s, n, n, kv);
    }
    forall b: nat, kv | kv in Bucket(app, s, n, b) ensures BucketOf(app, kv.key, n) == b {
      assert kv in multiset(Bucket(app, s, n, b));
      BucketCount(app, s, n, b, kv);
    }
  }

  lemma NothingInBucket(app: App, n: nat, b: nat)
    requires n > 0
    ensures Bucket(app, [], n, b) == []
  {
  }

  lemma {:induction false} BucketOfConcat(app: App, s: seq<KeyValue>, t: seq<KeyValue>, n: nat, b: nat)
    requires n > 0
    ensures Bucket(app, s + t, n, b) == Bucket(app, s, n, b) + Bucket(app, t, n, b)
    decreases |t|
  {
    hide BucketOf, Bucket;
    if t == [] {
      assert s + t == s;
      NothingInBucket(app, n, b);
    } else {
      var u, e := t[..|t| - 1], t[|t| - 1];
      BucketOfConcat(app, s, u, n, b);
      BucketSnoc(app, s + u, e, n, b);
      BucketSnoc(app, u, e, n, b);
      assert s + t == s + u + [e];
      assert t == u + [e];
    }
  }

  // ----- lines by bucket

  lemma {:induction false} ValuesInBucket(app: App, s: seq<KeyValue>, n: nat, b: nat, key: string)
    requires n > 0 && BucketOf(app, key, n) == b
    ensures ValuesFor(Bucket(app, s, n, b), key) == ValuesFor(s, key)
  {
    if s != [] {
      var u, e := s[..|s| - 1], s[|s| - 1];
      assert s == u + [e];
      ValuesInBucket(app, u, n, b, key);
      BucketSnoc(app, u, e, n, b);
      ValuesForSplit(u, [e], key);
      var last := if BucketOf(app, e.key, n) == b then [e] else [];
      ValuesForSplit(Bucket(app, u, n, b), last, key);
    }
  }

  lemma KeysInBucket(app: App, s: seq<KeyValue>, n: nat, b: nat, key: string)
    requires n > 0
    ensures key in Keys(Bucket(app, s, n, b)) <==> key in Keys(s) && BucketOf(app, key, n) == b
  {
    BucketsConserve(app, s, n);
    forall kv ensures kv in Bucket(app, s, n, b) <==> kv in s && BucketOf(app, kv.key, n) == b {
      BucketCount(app, s, n, b, kv);
      assert kv in multiset(Bucket(app, s, n, b)) <==> kv in Bucket(app, s, n, b);
      assert kv in multiset(s) <==> kv in s;
    }
  }

  /** Reducing one bucket writes the lines of the keys that hash to it. */
  lemma LinesOfBucket(app: App, s: seq<KeyValue>, n: nat, b: nat)
    requires n > 0
    ensures ExpectedLines(app, Bucket(app, s, n, b)) ==
        set l | l in ExpectedLines(app, s) && BucketOf(app, l.key, n) == b
  {
    hide Bucket, ValuesFor, Keys;
    forall k ensures k in Keys(Bucket(app, s, n, b)) <==> k in Keys(s) && BucketOf(app, k, n) == b {
      KeysInBucket(app, s, n, b, k);
    }
    forall k | BucketOf(app, k, n) == b ensures ValuesFor(Bucket(app, s, n, b), k) == ValuesFor(s, k) {
      ValuesInBucket(app, s, n, b, k);
    }
  }

  /** The lines in the first k of the outputs. */
  ghost function TotalLines(outputs: seq<multiset<Line>>, k: nat): multiset<Line>
    requires k <= |outputs|
  {
    if k == 0 then multiset{} else TotalLines(outputs, k - 1) + outputs[k - 1]
  }

  /** The expected lines of the keys of the first k reduce tasks. */
  ghost function LinesUpTo(app: App, s: seq<KeyValue>, n: nat, k: nat): set<Line>
    requires n > 0
  {
    set l | l in ExpectedLines(app, s) && BucketOf(app, l.key, n) < k
  }

  lemma LinesUpToStep(app: App, s: seq<KeyValue>, n: nat, k: nat)
    requires 0 < k <= n
    ensures var now := ExpectedLines(app, Bucket(app, s, n, k - 1));
      LinesUpTo(app, s, n, k) == LinesUpTo(app, s, n, k - 1) + now && LinesUpTo(app, s, n, k - 1) !! now
  {
    hide Bucket, BucketOf, ExpectedLines;
    LinesOfBucket(app, s, n, k - 1);
  }

  lemma DisjointMultisets<T>(a: set<T>, b: set<T>)
    requires a !! b
    ensures multiset(a + b) == multiset(a) + multiset(b)
  {
  }

  lemma {:induction false} TotalUpTo(app: App, s: seq<KeyValue>, n: nat, outputs: seq<multiset<Line>>, k: nat)
    requires n > 0 && |outputs| == n && k <= n
    requires forall b | 0 <= b < n :: outputs[b] == multiset(ExpectedLines(app, Bucket(app, s, n, b)))
    ensures TotalLines(outputs, k) == multiset(LinesUpTo(app, s, n, k))
  {
    hide Bucket, BucketOf, ExpectedLines;
    if k > 0 {
      TotalUpTo(app, s, n, outputs, k - 1);
      LinesUpToStep(app, s, n, k);
      DisjointMultisets(LinesUpTo(app, s, n, k - 1), ExpectedLines(app, Bucket(app, s, n, k - 1)));
    } else {
      assert LinesUpTo(app, s, n, 0) == {};
    }
  }

  /** Reducing bucket by bucket writes the same lines as reducing everything at once. */
  lemma TotalIsExpected(app: App, s: seq<KeyValue>, n: nat, outputs: seq<multiset<Line>>)
    requires n > 0 && |outputs| == n
    requires forall b | 0 <= b < n :: outputs[b] == multiset(ExpectedLines(app, Bucket(app, s, n, b)))
    ensures TotalLines(outputs, n) == multiset(ExpectedLines(app, s))
  {
    TotalUpTo(app, s, n, outputs, n);
    assert LinesUpTo(app, s, n, n) == ExpectedLines(app, s);
  }
}
