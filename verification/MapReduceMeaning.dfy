/**
 * What the output of a job is, said by the inputs and the application's functions alone: which keys have a line, and
 * which values reduce was given for each.
 */
module MapReduceMeaning {
  import opened Grouping
  import opened Buckets
  import opened MapReduceJob

  /** Map emits the pair for some input. */
  ghost predicate IsEmitted(job: Job, kv: KeyValue) {
    exists i | 0 <= i < |job.inputs| :: kv in job.app.mapf(job.inputs[i].0, job.inputs[i].1)
  }

  ghost predicate KeyIsEmitted(job: Job, key: string) {
    exists v :: IsEmitted(job, KeyValue(key, v))
  }

  /** How often map emits the pair for the first k inputs. */
  ghost function Times(job: Job, kv: KeyValue, k: nat): nat
    requires k <= |job.inputs|
  {
    if k == 0 then 0
    else Times(job, kv, k - 1) + multiset(job.app.mapf(job.inputs[k - 1].0, job.inputs[k - 1].1))[kv]
  }

  /** Reduce was given each value as often as map emits it with the key. */
  ghost predicate IsReduced(job: Job, l: Line) {
    exists vs :: GathersAll(job, l.key, vs) && l.result == job.app.reducef(l.key, vs)
  }

  ghost predicate GathersAll(job: Job, key: string, vs: seq<string>) {
    forall v :: multiset(vs)[v] == Times(job, KeyValue(key, v), |job.inputs|)
  }

  ghost predicate HasLine(lines: multiset<Line>, key: string) {
    exists l :: l in lines && l.key == key
  }

  /** One line for each key that is emitted, and no other, from all its values. */
  ghost predicate RightLines(job: Job, lines: multiset<Line>) {
    && (forall key :: HasLine(lines, key) <==> KeyIsEmitted(job, key))
    && (forall l | l in lines :: lines[l] == 1 && IsReduced(job, l))
    && (forall l, m | l in lines && m in lines && l.key == m.key :: l == m)
  }

  // ----- what the map tasks emit

  lemma {:induction false} CountEmitted(job: Job, kv: KeyValue, k: nat)
    requires k <= Maps(job)
    ensures multiset(EmittedUpTo(job, k))[kv] == Times(job, kv, k)
  {
    if k > 0 {
      CountEmitted(job, kv, k - 1);
    }
  }

  lemma {:induction false} TimesIsEmitted(job: Job, kv: KeyValue, k: nat)
    requires k <= |job.inputs|
    ensures Times(job, kv, k) > 0 <==> exists i | 0 <= i < k :: kv in job.app.mapf(job.inputs[i].0, job.inputs[i].1)
  {
    if k > 0 {
      TimesIsEmitted(job, kv, k - 1);
      var last := job.app.mapf(job.inputs[k - 1].0, job.inputs[k - 1].1);
      assert multiset(last)[kv] > 0 <==> kv in last;
    }
  }

  lemma KeysAreEmitted(job: Job, s: seq<KeyValue>, key: string)
    requires multiset(s) == multiset(EmittedUpTo(job, Maps(job)))
    ensures key in Keys(s) <==> KeyIsEmitted(job, key)
  {
    hide EmittedUpTo, Times;
    forall v ensures KeyValue(key, v) in s <==> IsEmitted(job, KeyValue(key, v)) {
      CountEmitted(job, KeyValue(key, v), Maps(job));
      TimesIsEmitted(job, KeyValue(key, v), Maps(job));
      assert KeyValue(key, v) in s <==> KeyValue(key, v) in multiset(s);
    }
    if key in Keys(s) {
      var kv :| kv in s && kv.key == key;
      assert kv == KeyValue(key, kv.value);
    }
  }

  lemma ValuesGatherAll(job: Job, s: seq<KeyValue>, key: string)
    requires multiset(s) == multiset(EmittedUpTo(job, Maps(job)))
    ensures GathersAll(job, key, ValuesFor(s, key))
  {
    hide EmittedUpTo, Times, ValuesFor;
    forall v ensures multiset(ValuesFor(s, key))[v] == Times(job, KeyValue(key, v), |job.inputs|) {
      ValuesForCount(s, key, v);
      CountEmitted(job, KeyValue(key, v), Maps(job));
    }
  }

  lemma ExpectedAreRight(job: Job, s: seq<KeyValue>)
    requires multiset(s) == multiset(EmittedUpTo(job, Maps(job)))
    ensures RightLines(job, multiset(ExpectedLines(job.app, s)))
  {
    hide EmittedUpTo, Keys, ValuesFor, GathersAll, KeyIsEmitted;
    var expected := ExpectedLines(job.app, s);
    var lines := multiset(expected);
    forall key ensures HasLine(lines, key) <==> KeyIsEmitted(job, key) {
      KeysAreEmitted(job, s, key);
      if key in Keys(s) { assert Line(key, job.app.reducef(key, ValuesFor(s, key))) in lines; }
    }
    forall l | l in lines ensures IsReduced(job, l) { ValuesGatherAll(job, s, l.key); }
  }
}
