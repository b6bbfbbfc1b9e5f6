/** The whole check of a history of operations: partition, one search per part, one verdict. */
module CheckOperations {
  import opened Options
  import opened FiniteSets
  import opened Linearizability
  import opened SearchTheory
  import opened SearchPath
  import opened LinkedEntries
  import opened Entries
  import opened Checker
  import opened ParallelCheck
  import opened KvLocality
  import opened KvMeaning

  /** What one goroutine does with its part: the answer is the truth, unless the search was killed. */
  method CheckPart<S(!new), V(!new, 0)>(
        model: Model<S, V>, part: seq<Operation<V>>, computePartial: bool, kill: nat -> bool)
    returns (ok: bool, longest: array<Option<seq<nat>>>, ghost killed: bool)
    requires WellTimed(part) && EqualIsCongruence(model)
    ensures ok ==> Linearizable(model, part)
    ensures !ok && !killed ==> !Linearizable(model, part)
    ensures killed ==> !ok && exists t: nat :: kill(t)
    ensures part != [] && kill(0) ==> killed
    ensures ok ==> forall t: nat | t < |part| :: !kill(t)
    ensures RecordsOk(model, part, longest[..])
    ensures !killed ==> Reported(model, part, ok, computePartial, longest[..])
  {
    hide Represents, SameUpToTime, Reported, RecordsOk, Linearizable, EqualIsCongruence, SortedByTime, EntriesOf;
    var entries, g := MakeEntries(part);
    ok, longest, killed := CheckSingle(model, entries, computePartial, kill, g);
    assert |g| == |part| by { SameSize(part, g); }
    SameVerdict(model, part, g);
    SameRecords(model, part, g, longest[..]);
    if !killed {
      SameReport(model, part, g, ok, computePartial, longest[..]);
    }
  }

  /** The same for a part that is given as events; its history is that of the renumbered events `e`. */
  method CheckEventPart<S(!new), V(!new, 0)>(
        model: Model<S, V>, part: seq<Event<V>>, computePartial: bool, kill: nat -> bool)
    returns (
        ok: bool, longest: array<Option<seq<nat>>>, e: seq<Event<V>>, ghost numbering: map<int, nat>,
        ghost killed: bool)
    requires PairedEvents(part) && EqualIsCongruence(model)
    ensures Numbers(part, numbering) && RenumberedBy(part, e, numbering) && PairedBelow(e, |numbering|)
    ensures SameButIds(part, e)
    ensures ok ==> Linearizable(model, EventHistory(e, |numbering|))
    ensures !ok && !killed ==> !Linearizable(model, EventHistory(e, |numbering|))
    ensures killed ==> !ok && exists t: nat :: kill(t)
    ensures part != [] && kill(0) ==> killed
    ensures ok ==> forall t: nat | t < |numbering| :: !kill(t)
    ensures RecordsOk(model, EventHistory(e, |numbering|), longest[..])
    ensures !killed ==> Reported(model, EventHistory(e, |numbering|), ok, computePartial, longest[..])
  {
    hide Represents, Reported, RecordsOk, Linearizable, EqualIsCongruence, PairedEvents, Numbers, RenumberedBy, OnlyIds,
        PairedBelow, EventHistory, SameButIds;
    e, numbering := Renumber(part);
    RenumberedIsPaired(part, e, numbering);
    SomeNumber(part, numbering);
    var entries := ConvertEntries(e, |numbering|);
    ok, longest, killed := CheckSingle(model, entries, computePartial, kill, EventHistory(e, |numbering|));
  }

  lemma SomeNumber<V>(events: seq<Event<V>>, m: map<int, nat>)
    requires Numbers(events, m)
    ensures events != [] ==> |m| > 0
  {
    if events != [] { assert events[0].id in m; }
  }

  // ----- the answers are those that the driver counts on

  /** At each of its turns, a search saw the kill flag of some state of the run up to x. */
  ghost predicate Saw(run: seq<State>, x: nat, kill: nat -> bool, moment: nat -> nat) {
    x < |run| && forall t: nat :: moment(t) <= x && (kill(t) ==> run[moment(t)].kill)
  }

  lemma {:induction false} KillStays(job: Job, run: seq<State>, i: nat, j: nat)
    requires Run(job, run) && i <= j < |run| && run[i].kill
    ensures run[j].kill
    decreases j
  {
    hide MayAnswer;
    if i < j {
      KillStays(job, run, i, j - 1);
      assert Next(job, run[j - 1], run[j]);
    }
  }

  /**
   * What a search of a part returns, which is the truth unless it was killed, is an answer that the driver may be sent
   * at x, if the job has the truth about this part.
   */
  lemma CheckedMayAnswer<S, V>(
      model: Model<S, V>, part: seq<Operation<V>>, ok: bool, killed: bool, kill: nat -> bool,
      job: Job, run: seq<State>, x: nat, moment: nat -> nat, i: nat)
    requires ok ==> Linearizable(model, part)
    requires !ok && !killed ==> !Linearizable(model, part)
    requires killed ==> !ok && exists t: nat :: kill(t)
    requires Run(job, run) && Saw(run, x, kill, moment)
    requires i < |job.lin| && job.lin[i] == Linearizable(model, part)
    ensures MayAnswer(job, run[x].kill, Answer(i, ok, killed))
  {
    hide Linearizable, Run;
    if killed {
      var t: nat :| kill(t);
      KillStays(job, run, moment(t), x);
    }
  }

  /** A goroutine searches part i of the job while the driver runs, and sends its answer at x. */
  method AnswerPart<S(!new), V(!new, 0)>(
      model: Model<S, V>, part: seq<Operation<V>>, computePartial: bool, kill: nat -> bool,
      ghost job: Job, ghost run: seq<State>, ghost x: nat, ghost moment: nat -> nat, ghost i: nat)
    returns (ok: bool, longest: array<Option<seq<nat>>>, ghost next: State)
    requires WellTimed(part) && EqualIsCongruence(model)
    requires Run(job, run) && Saw(run, x, kill, moment) && i in run[x].running
    requires i < |job.lin| && job.lin[i] == Linearizable(model, part)
    ensures Run(job, run[..x + 1] + [next])
    ensures next.running == run[x].running - {i} && next.results != [] && next.results[|next.results| - 1].part == i
    ensures next.results[|next.results| - 1].ok == ok && (ok ==> job.lin[i]) && (!ok && !run[x].kill ==> !job.lin[i])
    ensures part != [] && kill(0) ==> !ok
    ensures RecordsOk(model, part, longest[..])
  {
    hide Linearizable, RecordsOk, Reported, WellTimed, EqualIsCongruence, Run, MayAnswer;
    ghost var killed;
    ok, longest, killed := CheckPart(model, part, computePartial, kill);
    CheckedMayAnswer(model, part, ok, killed, kill, job, run, x, moment, i);
    next := Sent(job, run, x, Answer(i, ok, killed));
    AnswerIsTrue(job, run[x].kill, Answer(i, ok, killed));
  }

  lemma AnswerIsTrue(job: Job, kill: bool, a: Answer)
    requires MayAnswer(job, kill, a)
    ensures (a.ok ==> job.lin[a.part]) && (!a.ok && !kill ==> !job.lin[a.part])
  {
  }

  /** Up to x, and then the answer is sent. */
  lemma Sent(job: Job, run: seq<State>, x: nat, a: Answer) returns (next: State)
    requires Run(job, run) && x < |run| && a.part in run[x].running && MayAnswer(job, run[x].kill, a)
    ensures Run(job, run[..x + 1] + [next])
    ensures next == run[x].(running := run[x].running - {a.part}, results := run[x].results + [a])
  {
    hide MayAnswer, Receive, Timeout, Drain;
    next := run[x].(running := run[x].running - {a.part}, results := run[x].results + [a]);
    assert Send(job, run[x], next);
    var longer := run[..x + 1] + [next];
    forall y | 0 <= y < |longer| - 1 ensures Next(job, longer[y], longer[y + 1]) {
      if y < x { assert longer[y] == run[y] && longer[y + 1] == run[y + 1]; }
    }
  }

  lemma SameVerdict<S, V>(m: Model<S, V>, h: seq<Operation<V>>, g: seq<Operation<V>>)
    requires SameUpToTime(h, g)
    ensures Linearizable(m, h) <==> Linearizable(m, g)
  {
    hide Linearizes, SameUpToTime;
    forall p ensures Linearizes(m, h, p) <==> Linearizes(m, g, p) {
      SameOrderSameLinearizations(m, h, g, p);
    }
  }

  lemma SameRecords<S, V>(m: Model<S, V>, h: seq<Operation<V>>, g: seq<Operation<V>>, longest: Longest)
    requires SameUpToTime(h, g) && RecordsOk(m, g, longest)
    ensures RecordsOk(m, h, longest)
  {
    hide Linearizes, PartiallyLinearizes, SameUpToTime;
    SameSize(h, g);
    forall p ensures PartiallyLinearizes(m, h, p) <==> PartiallyLinearizes(m, g, p) {
      SameOrderSameLinearizations(m, h, g, p);
    }
  }

  lemma SameReport<S, V>(
        m: Model<S, V>, h: seq<Operation<V>>, g: seq<Operation<V>>, ok: bool, partials: bool, longest: Longest)
    requires SameUpToTime(h, g) && Reported(m, g, ok, partials, longest)
    ensures Reported(m, h, ok, partials, longest)
  {
    hide Linearizes, PartiallyLinearizes, SameUpToTime;
    assert |h| == |g| by { SameSize(h, g); }
    forall p ensures Linearizes(m, h, p) <==> Linearizes(m, g, p)
             ensures PartiallyLinearizes(m, h, p) <==> PartiallyLinearizes(m, g, p) {
      SameOrderSameLinearizations(m, h, g, p);
    }
    if !ok && partials {
      forall i | 0 <= i < |h| ensures LongestFor(m, h, longest, i) {
        assert LongestFor(m, g, longest, i);
      }
    }
  }

  lemma SameSize<V>(h: seq<Operation<V>>, g: seq<Operation<V>>)
    requires SameUpToTime(h, g)
    ensures |h| == |g|
  {
  }

  /** The job whose partitions are the keys' sub-histories of a key/value history. */
  ghost predicate JobOf(job: Job, h: KvHistory, keys: seq<string>) {
    && SetOf(keys) == KeysOf(h) && |job.lin| == |keys|
    && forall i | 0 <= i < |keys| :: job.lin[i] == Linearizable(KvModel(), SubHistory(h, keys[i]))
  }

  /**
   * Checking a key/value history part by part: whatever the order of the answers and the moment of the timeout,
   * Ok means that the history is linearizable for the store of all keys, so that some order of its operations explains
   * what all reads returned, and Illegal that it is not, and none does.
   */
  lemma KvVerdict(h: KvHistory, keys: seq<string>, job: Job, run: seq<State>)
    requires WellTyped(h) && WellTimed(h) && JobOf(job, h, keys)
    requires Run(job, run) && run[|run| - 1].phase.Finished?
    ensures var r := run[|run| - 1].phase.result;
      && (r == Ok ==> Linearizable(StoreModel(), h) && Explained(h))
      && (r == Illegal ==> !Linearizable(StoreModel(), h) && !Explained(h))
      && (r == Unknown ==> job.timeout)
  {
    hide WellTyped, WellTimed, Linearizable, SubHistory, KeysOf, SetOf, Explained, StoreModel;
    LinearizableIffExplained(h);
    VerdictIsRight(job, run);
    var parts := seq(|keys|, i requires 0 <= i < |keys| => SubHistory(h, keys[i]));
    Locality(h, keys, parts);
    assert forall i | 0 <= i < |parts| :: job.lin[i] == Linearizable(KvModel(), parts[i]);
  }
}
