/**
 * The concurrent driver of the checker: one goroutine searches each partition, the main loop
 * collects their answers over a channel until it can decide, or until a timeout fires.
 * A step of the system is one send, one receive, or the timeout.
 */
module ParallelCheck {
  import opened FiniteSets

  datatype CheckResult = Unknown | Ok | Illegal

  /** `lin[i]` says whether partition i really is linearizable; `timeout` whether a timeout was asked for. */
  datatype Job = Job(lin: seq<bool>, computeInfo: bool, timeout: bool)

  /** What partition `part` answered; `killed` if its search gave up. */
  datatype Answer = Answer(part: nat, ok: bool, killed: bool)

  datatype Phase = Collecting | Draining | Finished(result: CheckResult)

  datatype State =
      State(kill: bool, running: set<nat>, results: seq<Answer>, count: nat, ok: bool, timedOut: bool, phase: Phase)

  ghost function Start(job: Job): State {
    State(false, Below(|job.lin|), [], 0, true, false, Collecting)
  }

  function Verdict(ok: bool, timedOut: bool): CheckResult {
    if !ok then Illegal else if timedOut then Unknown else Ok
  }

  /** The main loop has been left: with information to compute, all answers are waited for first. */
  function Left(job: Job, s: State): State {
    s.(phase := if job.computeInfo && s.count < |job.lin| then Draining else Finished(Verdict(s.ok, s.timedOut)))
  }

  /** What a search may answer: the truth, or false when it saw the kill flag set. */
  predicate MayAnswer(job: Job, kill: bool, a: Answer) {
    && a.part < |job.lin|
    && (if a.killed then kill && !a.ok else a.ok == job.lin[a.part])
  }

  ghost predicate Send(job: Job, s: State, t: State) {
    exists a: Answer :: a.part in s.running && MayAnswer(job, s.kill, a) &&
      t == s.(running := s.running - {a.part}, results := s.results + [a])
  }

  ghost predicate Receive(job: Job, s: State, t: State) {
    && s.phase == Collecting && s.results != []
    && var r := s.(results := s.results[1..], count := s.count + 1, ok := s.ok && s.results[0].ok);
    && t == if !r.ok && !job.computeInfo then Left(job, r.(kill := true))
            else if r.count >= |job.lin| then Left(job, r)
            else r
  }

  ghost predicate Timeout(job: Job, s: State, t: State) {
    && s.phase == Collecting && job.timeout
    && t == Left(job, s.(timedOut := true, kill := true))
  }

  ghost predicate Drain(job: Job, s: State, t: State) {
    && s.phase == Draining && s.results != []
    && t == Left(job, s.(results := s.results[1..], count := s.count + 1))
  }

  ghost predicate Next(job: Job, s: State, t: State) {
    Send(job, s, t) || Receive(job, s, t) || Timeout(job, s, t) || Drain(job, s, t)
  }

  ghost predicate Run(job: Job, run: seq<State>) {
    && run != [] && run[0] == Start(job)
    && forall i | 0 <= i < |run| - 1 :: Next(job, run[i], run[i + 1])
  }

  // ----- what every reachable state satisfies

  ghost predicate Waiting(s: State, i: nat) {
    i in s.running || exists k | 0 <= k < |s.results| :: s.results[k].part == i
  }

  /** `ok` is false only because some partition is not linearizable, and true only if all received ones are. */
  ghost predicate Inv(job: Job, s: State) {
    && (forall i | i in s.running :: i < |job.lin|)
    && (s.phase == Collecting ==> !s.kill && !s.timedOut)
    && (s.phase == Collecting ==> forall k | 0 <= k < |s.results| :: MayAnswer(job, false, s.results[k]))
    && (!s.ok ==> exists i | 0 <= i < |job.lin| :: !job.lin[i])
    && (s.ok && !s.timedOut ==> forall i | 0 <= i < |job.lin| && !job.lin[i] :: Waiting(s, i))
    && s.count + |s.results| + |s.running| == |job.lin|
    && (s.timedOut ==> job.timeout)
    && (s.phase != Collecting && s.ok && !s.timedOut ==> forall i | 0 <= i < |job.lin| :: job.lin[i])
    && (s.phase.Finished? ==> s.phase.result == Verdict(s.ok, s.timedOut))
    && (s.phase == Draining ==> s.count < |job.lin|)
    && (s.phase == Collecting && |job.lin| > 0 ==> s.count < |job.lin|)
  }

  lemma SendKeepsInv(job: Job, s: State, t: State)
    requires Inv(job, s) && Send(job, s, t)
    ensures Inv(job, t)
  {
    var a: Answer :| a.part in s.running && MayAnswer(job, s.kill, a) &&
      t == s.(running := s.running - {a.part}, results := s.results + [a]);
    forall i | Waiting(s, i) ensures Waiting(t, i) {
      if i == a.part {
        assert t.results[|s.results|].part == i;
      } else if i !in s.running {
        var k :| 0 <= k < |s.results| && s.results[k].part == i;
        assert t.results[k].part == i;
      }
    }
  }

  lemma LeftKeepsInv(job: Job, s: State, r: State)
    requires Inv(job, s) && s.phase == Collecting && s.results != []
    requires r.running == s.running && r.results == s.results[1..] && r.count == s.count + 1 && r.timedOut == s.timedOut
    requires r.ok == (s.ok && s.results[0].ok) && (r.kill ==> !r.ok) && r.phase == Collecting
    ensures r.ok && r.count >= |job.lin| ==> forall i | 0 <= i < |job.lin| :: job.lin[i]
    ensures !r.ok || r.count >= |job.lin| ==> Inv(job, Left(job, r))
    ensures !r.kill && r.count < |job.lin| ==> Inv(job, r)
  {
    var a := s.results[0];
    assert MayAnswer(job, false, a);
    forall i | 0 <= i < |job.lin| && r.ok && !job.lin[i] ensures Waiting(r, i) {
      assert Waiting(s, i);
      if i !in s.running {
        var k :| 0 <= k < |s.results| && s.results[k].part == i;
        assert k > 0 && r.results[k - 1].part == i;
      }
    }
    if !r.ok && s.ok {
      assert !job.lin[a.part];
    }
    forall k | 0 <= k < |r.results| ensures MayAnswer(job, false, r.results[k]) {
      assert r.results[k] == s.results[k + 1];
    }
  }

  lemma NextKeepsInv(job: Job, s: State, t: State)
    requires Inv(job, s) && Next(job, s, t)
    ensures Inv(job, t)
  {
    if Send(job, s, t) {
      SendKeepsInv(job, s, t);
    } else if Receive(job, s, t) {
      var r := s.(results := s.results[1..], count := s.count + 1, ok := s.ok && s.results[0].ok);
      if !r.ok && !job.computeInfo {
        LeftKeepsInv(job, s, r.(kill := true));
      } else {
        LeftKeepsInv(job, s, r);
      }
    } else if Drain(job, s, t) {
      assert s.ok && !s.timedOut ==> forall i | 0 <= i < |job.lin| :: job.lin[i];
    }
  }

  lemma {:induction false} RunKeepsInv(job: Job, run: seq<State>, k: nat)
    requires Run(job, run) && k < |run|
    ensures Inv(job, run[k])
  {
    hide Inv, Next;
    if k == 0 {
      StartInv(job);
    } else {
      RunKeepsInv(job, run, k - 1);
      NextKeepsInv(job, run[k - 1], run[k]);
    }
  }

  lemma StartInv(job: Job)
    ensures Inv(job, Start(job))
  {
  }

  // ----- what has happened, and what the driver makes of it

  /** In step i the main loop takes an answer that says false. */
  ghost predicate TakesFalse(job: Job, run: seq<State>, i: nat) {
    i + 1 < |run| && Receive(job, run[i], run[i + 1]) && !run[i].results[0].ok
  }

  /** In step i the timeout fires. */
  ghost predicate TimesOut(job: Job, run: seq<State>, i: nat) {
    i + 1 < |run| && Timeout(job, run[i], run[i + 1])
  }

  ghost predicate FalseBefore(job: Job, run: seq<State>, k: nat) {
    exists i: nat :: i < k && TakesFalse(job, run, i)
  }

  ghost predicate TimeoutBefore(job: Job, run: seq<State>, k: nat) {
    exists i: nat :: i < k && TimesOut(job, run, i)
  }

  /**
   * The flag is set by the timeout, and by a false answer unless information is asked for; for that, all must answer.
   */
  ghost predicate Flags(job: Job, s: State) {
    && (s.kill <==> s.timedOut || (!job.computeInfo && !s.ok))
    && (s.phase == Collecting ==> !s.kill)
    && (s.phase.Finished? && job.computeInfo ==> s.count >= |job.lin|)
    && (s.phase != Collecting && s.ok && !s.timedOut ==> s.count >= |job.lin|)
    && (s.phase.Finished? ==> s.phase.result == Verdict(s.ok, s.timedOut))
  }

  lemma StepFlags(job: Job, s: State, t: State)
    requires Flags(job, s) && Next(job, s, t)
    ensures Flags(job, t)
    ensures t.ok <==> s.ok && !(Receive(job, s, t) && !s.results[0].ok)
    ensures t.timedOut <==> s.timedOut || Timeout(job, s, t)
  {
  }

  lemma {:induction false} FlagsOfRun(job: Job, run: seq<State>, k: nat)
    requires Run(job, run) && k < |run|
    ensures Flags(job, run[k])
    ensures (run[k].ok <==> !FalseBefore(job, run, k)) && (run[k].timedOut <==> TimeoutBefore(job, run, k))
  {
    hide Next, Receive, Timeout, Flags;
    if k == 0 {
      StartFlags(job);
    } else {
      FlagsOfRun(job, run, k - 1);
      StepFlags(job, run[k - 1], run[k]);
      OneStepMore(job, run, k - 1);
    }
  }

  lemma OneStepMore(job: Job, run: seq<State>, k: nat)
    requires k + 1 < |run|
    ensures FalseBefore(job, run, k + 1) <==>
        FalseBefore(job, run, k) || (Receive(job, run[k], run[k + 1]) && !run[k].results[0].ok)
    ensures TimeoutBefore(job, run, k + 1) <==> TimeoutBefore(job, run, k) || Timeout(job, run[k], run[k + 1])
  {
    hide Timeout;
    assert TakesFalse(job, run, k) <==> Receive(job, run[k], run[k + 1]) && !run[k].results[0].ok;
    assert TimesOut(job, run, k) <==> Timeout(job, run[k], run[k + 1]);
  }

  lemma StartFlags(job: Job)
    ensures Flags(job, Start(job))
  {
  }

  /**
   * The answer is Illegal exactly if the main loop took an answer that says false, whatever the timeout did; otherwise
   * it is Unknown exactly if the timeout fired, and Ok if it did not. Without a timeout, or with information asked for,
   * no answer is missing.
   */
  lemma VerdictMeans(job: Job, run: seq<State>)
    requires Run(job, run) && run[|run| - 1].phase.Finished?
    ensures var last := run[|run| - 1];
      && last.phase.result == (if FalseBefore(job, run, |run|) then Illegal
                               else if TimeoutBefore(job, run, |run|) then Unknown
                               else Ok)
      && (last.phase.result == Ok || job.computeInfo ==> last.count >= |job.lin|)
  {
    hide Next, Receive, Timeout;
    FlagsOfRun(job, run, |run| - 1);
    if FalseBefore(job, run, |run|) { assert FalseBefore(job, run, |run| - 1); }
    if TimeoutBefore(job, run, |run|) { assert TimeoutBefore(job, run, |run| - 1); }
  }

  /**
   * Searches are told to stop exactly once the timeout has fired, or a false answer decides and nothing more is asked
   * for.
   */
  lemma KillMeans(job: Job, run: seq<State>, k: nat)
    requires Run(job, run) && k < |run|
    ensures run[k].kill <==> TimeoutBefore(job, run, k) || (!job.computeInfo && FalseBefore(job, run, k))
  {
    hide Next, Receive, Timeout;
    FlagsOfRun(job, run, k);
  }

  /**
   * For any arrival order and any moment of the timeout, Ok means that every partition is linearizable
   * and Illegal that some partition is not; a search that was killed never causes Illegal. Without a
   * timeout the answer is always one of the two.
   */
  lemma VerdictIsRight(job: Job, run: seq<State>)
    requires Run(job, run) && run[|run| - 1].phase.Finished?
    ensures var r := run[|run| - 1].phase.result;
      && (r == Ok ==> forall i | 0 <= i < |job.lin| :: job.lin[i])
      && (r == Illegal ==> exists i | 0 <= i < |job.lin| :: !job.lin[i])
      && (r == Unknown ==> job.timeout)
  {
    RunKeepsInv(job, run, |run| - 1);
  }

  ghost predicate CanStep(job: Job, s: State) {
    exists t :: Next(job, s, t)
  }

  // ----- the driver ends, unless there is nothing to check

  ghost function StepsLeft(s: State): nat {
    2 * |s.running| + |s.results| + if s.phase == Collecting then 1 else 0
  }

  lemma NextIsShorter(job: Job, s: State, t: State)
    requires Next(job, s, t)
    ensures StepsLeft(t) < StepsLeft(s)
  {
    if Send(job, s, t) {
      var a: Answer :| a.part in s.running && MayAnswer(job, s.kill, a) &&
        t == s.(running := s.running - {a.part}, results := s.results + [a]);
      assert |t.running| == |s.running| - 1;
    }
  }

  lemma {:induction false} RunsAreShort(job: Job, run: seq<State>, k: nat)
    requires Run(job, run) && k < |run|
    ensures k + StepsLeft(run[k]) <= 2 * |job.lin| + 1
  {
    hide Next;
    if k > 0 {
      RunsAreShort(job, run, k - 1);
      NextIsShorter(job, run[k - 1], run[k]);
    }
  }

  /** With at least one partition, a run can always go on until the driver has answered. */
  lemma NeverStuck(job: Job, run: seq<State>)
    requires Run(job, run) && |job.lin| > 0 && !run[|run| - 1].phase.Finished?
    ensures CanStep(job, run[|run| - 1])
  {
    var s := run[|run| - 1];
    RunKeepsInv(job, run, |run| - 1);
    if s.results == [] {
      assert s.running != {};
      var i :| i in s.running;
      var a := Answer(i, job.lin[i], false);
      var t := s.(running := s.running - {a.part}, results := s.results + [a]);
      assert Send(job, s, t);
      assert Next(job, s, t);
    } else if s.phase == Collecting {
      var r := s.(results := s.results[1..], count := s.count + 1, ok := s.ok && s.results[0].ok);
      var t := if !r.ok && !job.computeInfo then Left(job, r.(kill := true))
               else if r.count >= |job.lin| then Left(job, r)
               else r;
      assert Next(job, s, t);
    } else {
      var t := Left(job, s.(results := s.results[1..], count := s.count + 1));
      assert Next(job, s, t);
    }
  }

  /** A driver with nothing to check and no timeout waits for ever; any other start can take a step. */
  lemma StuckAtStart(job: Job)
    ensures CanStep(job, Start(job)) <==> |job.lin| > 0 || job.timeout
  {
    var s := Start(job);
    if |job.lin| > 0 {
      assert Run(job, [s]);
      NeverStuck(job, [s]);
    } else if job.timeout {
      assert Next(job, s, Left(job, s.(timedOut := true, kill := true)));
    }
  }
}
