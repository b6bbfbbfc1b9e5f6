/**
 * The distributed job can always be finished: from every reachable state, whatever workers have crashed or hang, a
 * fresh worker that does not crash gets it done.
 */
module MapReduceProgress {
  import opened FiniteSets
  import opened Strings
  import opened Grouping
  import opened Buckets
  import opened MapReduceJob
  import opened MapReduceInvariant
  import opened MapReduceSteps
  import opened MapReduceTheorem

  // ----- what steps lead to

  ghost predicate Leads(job: Job, s: State, t: State, n: nat)
    requires job.nReduce > 0
    decreases n
  {
    if n == 0 then s == t else exists u :: Next(job, s, u) && Leads(job, u, t, n - 1)
  }

  ghost predicate Can(job: Job, s: State, t: State)
    requires job.nReduce > 0
  {
    exists n: nat :: Leads(job, s, t, n)
  }

  lemma CanStay(job: Job, s: State)
    requires job.nReduce > 0
    ensures Can(job, s, s)
  {
    assert Leads(job, s, s, 0);
  }

  lemma CanStep(job: Job, s: State, t: State)
    requires job.nReduce > 0 && Next(job, s, t)
    ensures Can(job, s, t)
  {
    hide Next;
    assert Leads(job, t, t, 0);
    assert Leads(job, s, t, 1);
  }

  lemma {:induction false} LeadsOn(job: Job, s: State, t: State, n: nat, u: State, m: nat)
    requires job.nReduce > 0 && Leads(job, s, t, n) && Leads(job, t, u, m)
    ensures Leads(job, s, u, n + m)
    decreases n
  {
    hide Next;
    if n > 0 {
      var v :| Next(job, s, v) && Leads(job, v, t, n - 1);
      LeadsOn(job, v, t, n - 1, u, m);
    }
  }

  lemma CanOn(job: Job, s: State, t: State, u: State)
    requires job.nReduce > 0 && Can(job, s, t) && Can(job, t, u)
    ensures Can(job, s, u)
  {
    hide Leads;
    var n: nat :| Leads(job, s, t, n);
    var m: nat :| Leads(job, t, u, m);
    LeadsOn(job, s, t, n, u, m);
  }

  lemma {:induction false} LeadsKeepsInv(job: Job, s: State, t: State, n: nat)
    requires WellFormed(job) && Inv(job, s) && Leads(job, s, t, n)
    ensures Inv(job, t)
    decreases n
  {
    hide Next, Inv, OrderBlind;
    if n > 0 {
      var v :| Next(job, s, v) && Leads(job, v, t, n - 1);
      StepKeepsInv(job, s, v);
      LeadsKeepsInv(job, v, t, n - 1);
    }
  }

  lemma CanKeepsInv(job: Job, s: State, t: State)
    requires WellFormed(job) && Inv(job, s) && Can(job, s, t)
    ensures Inv(job, t)
  {
    hide Leads, Inv, OrderBlind;
    var n: nat :| Leads(job, s, t, n);
    LeadsKeepsInv(job, s, t, n);
  }

  /** One step of process p. */
  lemma Acting(job: Job, s: State, p: nat, g: Shared, q: Proc) returns (t: State)
    requires job.nReduce > 0 && p in s.procs && Acts(job, s, p, g, q)
    ensures t == State(g, s.procs[p := q]) && Can(job, s, t)
  {
    hide Acts, Can;
    t := State(g, s.procs[p := q]);
    assert Moves(job, s, p, t);
    assert Next(job, s, t);
    CanStep(job, s, t);
  }

  // ----- every lock is held by a handler that is about to release it

  ghost predicate HoldsLock(job: Job, s: State, p: nat, a: nat) {
    p in s.procs && s.procs[p].Committing? && Index(job, s.procs[p].isMap, s.procs[p].task) == a
  }

  ghost predicate LocksHeld(job: Job, s: State) {
    forall a | a in s.g.locked :: exists p :: HoldsLock(job, s, p, a)
  }

  lemma MoveKeepsLocks(job: Job, s: State, p: nat, t: State, a: nat)
    requires job.nReduce > 0 && LocksHeld(job, s) && p in s.procs && Moves(job, s, p, t) && a in t.g.locked
    ensures exists o :: HoldsLock(job, t, o, a)
  {
    hide Share, LinesOf, AppendFiles;
    if s.procs[p].Reporting? && t.procs[p].Committing? && a !in s.g.locked {
      assert HoldsLock(job, t, p, a);
    } else {
      assert a in s.g.locked;
      var o :| HoldsLock(job, s, o, a);
      assert HoldsLock(job, t, o, a);
    }
  }

  lemma StepKeepsLocks(job: Job, s: State, t: State)
    requires job.nReduce > 0 && LocksHeld(job, s) && Next(job, s, t)
    ensures LocksHeld(job, t)
  {
    hide Moves;
    var p: nat :|
      || (p !in s.procs && t == s.(procs := s.procs[p := Asking(-1)]))
      || (p in s.procs && MayCrash(s.procs[p]) && t == s.(procs := s.procs - {p}))
      || (p in s.procs && Moves(job, s, p, t));
    forall a | a in t.g.locked ensures exists o :: HoldsLock(job, t, o, a) {
      if p in s.procs && Moves(job, s, p, t) {
        MoveKeepsLocks(job, s, p, t, a);
      } else {
        var o :| HoldsLock(job, s, o, a);
        assert HoldsLock(job, t, o, a);
      }
    }
  }

  lemma {:induction false} RunKeepsLocks(job: Job, run: seq<State>, k: nat)
    requires job.nReduce > 0 && Run(job, run) && k < |run|
    ensures LocksHeld(job, run[k])
  {
    hide Next, HoldsLock;
    if k > 0 {
      RunKeepsLocks(job, run, k - 1);
      StepKeepsLocks(job, run[k - 1], run[k]);
    }
  }

  /** The handlers that hold locks finish. */
  lemma {:induction false} Release(job: Job, s: State) returns (t: State)
    requires job.nReduce > 0 && LocksHeld(job, s)
    ensures Can(job, s, t) && t.g.locked == {}
    decreases |s.g.locked|
  {
    hide Can, Commit, AppendFiles;
    if a :| a in s.g.locked {
      var p :| HoldsLock(job, s, p, a);
      var u := FinishCommit(job, s, p);
      t := Release(job, u);
      CanOn(job, s, u, t);
    } else {
      t := s;
      CanStay(job, s);
    }
  }

  lemma FinishCommit(job: Job, s: State, p: nat) returns (t: State)
    requires job.nReduce > 0 && LocksHeld(job, s) && p in s.procs && s.procs[p].Committing?
    ensures var q := s.procs[p]; var a := Index(job, q.isMap, q.task);
      && Can(job, s, t) && LocksHeld(job, t) && t.g == Commit(job, s.g, q.id, q.isMap, q.task, q.outs)
      && t.g.locked == s.g.locked - {a} && t.procs == s.procs[p := Asking(q.id)]
  {
    hide Can, AppendFiles;
    var q := s.procs[p];
    var g := Commit(job, s.g, q.id, q.isMap, q.task, q.outs);
    t := Acting(job, s, p, g, Asking(q.id));
    forall b | b in t.g.locked ensures exists o :: HoldsLock(job, t, o, b) {
      var o :| HoldsLock(job, s, o, b);
      assert HoldsLock(job, t, o, b);
    }
  }

  // ----- how much is left

  function Flags(g: Shared): seq<bool> {
    seq(|g.tasks|, i requires 0 <= i < |g.tasks| => g.tasks[i].done)
  }

  function Undone(flags: seq<bool>): nat {
    if flags == [] then 0 else Undone(flags[..|flags| - 1]) + if flags[|flags| - 1] then 0 else 1
  }

  lemma {:induction false} OneDone(flags: seq<bool>, a: nat)
    requires a < |flags| && !flags[a]
    ensures Undone(flags[a := true]) < Undone(flags)
    decreases |flags|
  {
    var n := |flags| - 1;
    if a < n {
      OneDone(flags[..n], a);
      assert flags[a := true][..n] == flags[..n][a := true];
    } else {
      assert flags[a := true][..n] == flags[..n];
    }
  }

  // ----- one task, by one worker

  /** The worker passes over tasks that are done, to the first that is not. */
  lemma {:induction false} WalkTo(job: Job, s: State, p: nat, id: int, mapPhase: bool, i: nat, a: nat)
    returns (t: State)
    requires job.nReduce > 0 && p in s.procs && s.procs[p] == Probing(id, mapPhase, i) && s.g.locked == {}
    requires i <= a < PhaseEnd(job, mapPhase) && a < |s.g.tasks| && !s.g.tasks[a].done
    requires forall x | i <= x < a :: s.g.tasks[x].done
    ensures var (g, q) := Issue(job, s.g, id, a); Can(job, s, t) && t == State(g, s.procs[p := q])
    decreases a - i
  {
    hide Can, Share, LinesOf;
    if i == a {
      var (g, q) := Issue(job, s.g, id, a);
      t := Acting(job, s, p, g, q);
    } else {
      var u := Acting(job, s, p, s.g, Probing(id, mapPhase, i + 1));
      t := WalkTo(job, u, p, id, mapPhase, i + 1, a);
      CanOn(job, s, u, t);
      assert u.procs[p := t.procs[p]] == s.procs[p := t.procs[p]];
    }
  }

  /** Writing the remaining files of a map task. */
  lemma {:induction false} WriteFiles(job: Job, s: State, p: nat, id: int, task: nat) returns (t: State)
    requires job.nReduce > 0 && p in s.procs && s.procs[p].Mapping? && s.procs[p].id == id && s.procs[p].task == task
    requires task < Maps(job) && s.procs[p].bucket <= job.nReduce &&
        (s.procs[p].created ==> s.procs[p].bucket < job.nReduce)
    ensures Can(job, s, t) && t.g.tasks == s.g.tasks && t.g.locked == s.g.locked
    ensures p in t.procs && t.procs[p].Reporting? && t.procs[p].isMap && t.procs[p].id == id && t.procs[p].task == task
    decreases job.nReduce - s.procs[p].bucket, if s.procs[p].created then 0 else 1
  {
    hide Can, Share, LinesOf;
    var Mapping(_, _, b, created, outs) := s.procs[p];
    if b == job.nReduce {
      t := Acting(job, s, p, s.g, Reporting(id, true, task, outs));
    } else {
      var name := Intermediate(id, task, b);
      var u: State;
      if created {
        u := Acting(job, s, p, s.g.(files := s.g.files[name := Pairs(Share(job, task, b))]),
            Mapping(id, task, b + 1, false, outs));
      } else if Share(job, task, b) == [] {
        u := Acting(job, s, p, s.g, Mapping(id, task, b + 1, false, outs));
      } else {
        u := Acting(job, s, p, s.g.(files := s.g.files[name := Unfinished]),
            Mapping(id, task, b, true, outs[b := name]));
      }
      t := WriteFiles(job, u, p, id, task);
      CanOn(job, s, u, t);
    }
  }

  lemma Readable(job: Job, s: State, p: nat)
    requires WellFormed(job) && Inv(job, s) && p in s.procs && s.procs[p].Reading?
    ensures var Reading(_, _, inputs, k, _) := s.procs[p];
      k <= |inputs| && (k < |inputs| ==> inputs[k] in s.g.files && s.g.files[inputs[k]].Pairs?)
  {
    hide OrderBlind, GlobalOk, MapsDone, PairsIn, GoodLines, Share, Apart;
    assert ProcOk(job, s.g, s.procs[p]);
    InvListReadable(job, s.g, s.procs[p].task);
  }

  /** Any pairs can be sorted, so there are lines for them. */
  lemma {:induction false} SortExists(s: seq<KeyValue>) returns (r: seq<KeyValue>)
    ensures SortedByKey(r) && multiset(r) == multiset(s)
    decreases |s|
  {
    hide SortedByKey;
    if s == [] {
      r := [];
      NothingSorted();
    } else {
      var front, e := s[..|s| - 1], s[|s| - 1];
      r := SortExists(front);
      var k := PlaceFor(r, e);
      InsertSorted(r, e, k);
      r := Inserted(r, e, k);
      assert s == front + [e];
    }
  }

  lemma NothingSorted()
    ensures SortedByKey([])
  {
  }

  lemma {:induction false} PlaceFor(r: seq<KeyValue>, e: KeyValue) returns (k: nat)
    requires SortedByKey(r)
    ensures k <= |r| && (forall j | 0 <= j < k :: !StringLess(e.key, r[j].key)) &&
        (k < |r| ==> StringLess(e.key, r[k].key))
    decreases |r|
  {
    hide StringLess;
    if r != [] {
      var front := r[..|r| - 1];
      k := PlaceFor(front, e);
      if k == |front| && !StringLess(e.key, r[|r| - 1].key) { k := |r|; }
    } else {
      k := 0;
    }
  }

  /** Reading the remaining files of a reduce task, sorting, and writing its output. */
  lemma {:induction false} ReadFiles(job: Job, s: State, p: nat, id: int, task: nat) returns (t: State)
    requires WellFormed(job) && Inv(job, s) && p in s.procs && s.procs[p].Reading? && s.procs[p].id == id &&
        s.procs[p].task == task
    ensures Can(job, s, t) && t.g.tasks == s.g.tasks && t.g.locked == s.g.locked
    ensures p in t.procs && t.procs[p].Reporting? && !t.procs[p].isMap && t.procs[p].id == id && t.procs[p].task == task
    decreases |s.procs[p].inputs| - s.procs[p].k
  {
    hide Can, Share, LinesOf, Inv, OrderBlind;
    Readable(job, s, p);
    var Reading(_, _, inputs, k, content) := s.procs[p];
    if inputs == [] {
      t := Acting(job, s, p, s.g, Reporting(id, false, task, map[]));
    } else if k < |inputs| {
      var u := Acting(job, s, p, s.g, Reading(id, task, inputs, k + 1, content + s.g.files[inputs[k]].pairs));
      CanKeepsInv(job, s, u);
      t := ReadFiles(job, u, p, id, task);
      CanOn(job, s, u, t);
    } else {
      t := WriteOutput(job, s, p);
    }
  }

  lemma WriteOutput(job: Job, s: State, p: nat) returns (t: State)
    requires job.nReduce > 0 && p in s.procs && s.procs[p].Reading? && s.procs[p].inputs != [] &&
        s.procs[p].k == |s.procs[p].inputs|
    ensures Can(job, s, t) && t.g.tasks == s.g.tasks && t.g.locked == s.g.locked && p in t.procs
    ensures t.procs[p] == Reporting(s.procs[p].id, false, s.procs[p].task, map[0 := Output(s.procs[p].task)])
  {
    hide Can, Share, SortedByKey, Groups;
    var Reading(id, task, inputs, k, content) := s.procs[p];
    var sorted := SortExists(content);
    var lines := Groups(job.app, sorted);
    assert LinesOf(job.app, content, lines);
    hide LinesOf;
    var temp := Temp(id, task);
    var u := Acting(job, s, p, s.g.(files := s.g.files[temp := Unfinished]), Writing(id, task, lines, false));
    var v := Acting(job, u, p, u.g.(files := u.g.files[temp := Lines(lines)]), Writing(id, task, lines, true));
    CanOn(job, s, u, v);
    t := Acting(job, v, p, v.g.(files := (v.g.files - {temp})[Output(task) := v.g.files[temp]]),
        Reporting(id, false, task, map[0 := Output(task)]));
    CanOn(job, s, v, t);
  }

  /** Reporting a task that was not done: it is, now, and no other flag changes. */
  lemma Report(job: Job, s: State, p: nat) returns (t: State)
    requires job.nReduce > 0 && p in s.procs && s.procs[p].Reporting? && s.g.locked == {}
    requires var a := Index(job, s.procs[p].isMap, s.procs[p].task); a < |s.g.tasks| && !s.g.tasks[a].done
    ensures Can(job, s, t) && t.g.locked == {}
    ensures Flags(t.g) == Flags(s.g)[Index(job, s.procs[p].isMap, s.procs[p].task) := true]
  {
    hide Can, Share, LinesOf, AppendFiles;
    var Reporting(id, isMap, task, outs) := s.procs[p];
    var a := Index(job, isMap, task);
    var u := Acting(job, s, p, Mark(s.g, a), Committing(id, isMap, task, outs));
    t := Acting(job, u, p, Commit(job, u.g, id, isMap, task, outs), Asking(id));
    CanOn(job, s, u, t);
    AppendKeepsFlags(job, u.g.tasks, outs);
    assert u.g.locked - {a} == {};
  }

  lemma AppendKeepsFlags(job: Job, tasks: seq<Task>, outs: map<nat, FileName>)
    ensures |AppendFiles(job, tasks, outs)| == |tasks|
    ensures forall i | 0 <= i < |tasks| :: AppendFiles(job, tasks, outs)[i].done == tasks[i].done
  {
  }

  // ----- the next task

  lemma {:induction false} FreshNumber(s: set<nat>) returns (p: nat)
    ensures forall x | x in s :: x < p
    decreases |s|
  {
    if x :| x in s {
      var q := FreshNumber(s - {x});
      p := if x < q then q else x + 1;
      assert forall y | y in s :: y == x || y in s - {x};
    } else {
      p := 0;
    }
  }

  lemma {:induction false} FirstUndone(tasks: seq<Task>, i: nat, end: nat) returns (a: nat)
    requires i <= end <= |tasks| && exists x :: i <= x < end && !tasks[x].done
    ensures i <= a < end && !tasks[a].done && forall x | i <= x < a :: tasks[x].done
    decreases end - i
  {
    if tasks[i].done { a := FirstUndone(tasks, i + 1, end); } else { a := i; }
  }

  lemma DoneMapsCount(job: Job, g: Shared)
    requires TasksOk(job, g) && g.locked == {}
    ensures (forall x | 0 <= x < Maps(job) :: g.tasks[x].done) ==> g.workDone >= Maps(job)
  {
    if forall x | 0 <= x < Maps(job) :: g.tasks[x].done {
      var maps := Below(Maps(job));
      forall x | x in maps ensures x in CommittedSet(g) { assert Committed(g, x); }
      SubsetSize(maps, CommittedSet(g));
    }
  }

  /** Where the coordinator looks for a task, there is one, unless all are done. */
  lemma PhaseHasTask(job: Job, g: Shared)
    requires TasksOk(job, g) && g.locked == {} && exists x :: 0 <= x < |g.tasks| && !g.tasks[x].done
    ensures |g.tasks| == Maps(job) + job.nReduce
    ensures if g.workDone < Maps(job) then exists x :: 0 <= x < Maps(job) && !g.tasks[x].done
            else exists x :: Maps(job) <= x < |g.tasks| && !g.tasks[x].done
  {
    if g.workDone < Maps(job) {
      DoneMapsCount(job, g);
    } else {
      CountedAllMaps(job, g);
      forall x | 0 <= x < Maps(job) ensures g.tasks[x].done { assert Committed(g, x); }
    }
  }

  /** A fresh worker starts, and is handed the first task of the phase that is not done. */
  lemma GetTask(job: Job, s: State) returns (t: State, p: nat, id: int, a: nat)
    requires WellFormed(job) && Inv(job, s) && s.g.locked == {} &&
        exists x :: 0 <= x < |s.g.tasks| && !s.g.tasks[x].done
    ensures Can(job, s, t) && t.g.locked == {} && Flags(t.g) == Flags(s.g) &&
        a < |t.g.tasks| == Maps(job) + job.nReduce && !t.g.tasks[a].done
    ensures p in t.procs
    ensures if a < Maps(job) then t.procs[p] == Mapping(id, a, 0, false, map[])
            else t.procs[p].Reading? && t.procs[p].id == id && t.procs[p].task == a - Maps(job)
  {
    hide Can, Share, LinesOf, OrderBlind, GlobalOk, ProcOk, Apart;
    GlobalFacts(job, s.g);
    PhaseHasTask(job, s.g);
    p := FreshNumber(s.procs.Keys);
    var u := s.(procs := s.procs[p := Asking(-1)]);
    assert Next(job, s, u) by { assert p !in s.procs; }
    CanStep(job, s, u);
    id := s.g.workers;
    var v := Acting(job, u, p, u.g.(workers := id + 1), Asking(id));
    var mapPhase := v.g.workDone < Maps(job);
    var start := if mapPhase then 0 else Maps(job);
    var w := Acting(job, v, p, v.g, Probing(id, mapPhase, start));
    a := FirstUndone(w.g.tasks, start, PhaseEnd(job, mapPhase));
    t := WalkTo(job, w, p, id, mapPhase, start, a);
    CanOn(job, s, u, v);
    CanOn(job, s, v, w);
    CanOn(job, s, w, t);
  }

  /** It does the task and reports it. */
  lemma DoTask(job: Job, s: State) returns (t: State)
    requires WellFormed(job) && Inv(job, s) && s.g.locked == {} &&
        exists x :: 0 <= x < |s.g.tasks| && !s.g.tasks[x].done
    ensures Can(job, s, t) && t.g.locked == {} && Undone(Flags(t.g)) < Undone(Flags(s.g))
  {
    hide Can, Share, LinesOf, OrderBlind, Inv, Undone;
    var u, p, id, a := GetTask(job, s);
    var v: State;
    if a < Maps(job) {
      v := WriteFiles(job, u, p, id, a);
    } else {
      CanKeepsInv(job, s, u);
      v := ReadFiles(job, u, p, id, a - Maps(job));
    }
    CanOn(job, s, u, v);
    t := Report(job, v, p);
    CanOn(job, s, v, t);
    OneDone(Flags(s.g), a);
  }

  lemma {:induction false} DoAll(job: Job, s: State) returns (t: State)
    requires WellFormed(job) && Inv(job, s) && s.g.locked == {}
    ensures Can(job, s, t) && Done(t)
    decreases Undone(Flags(s.g))
  {
    hide Can, OrderBlind, Inv, Undone;
    if exists x :: 0 <= x < |s.g.tasks| && !s.g.tasks[x].done {
      var u := DoTask(job, s);
      CanKeepsInv(job, s, u);
      t := DoAll(job, u);
      CanOn(job, s, u, t);
    } else {
      t := s;
      CanStay(job, s);
    }
  }

  lemma {:induction false} LeadsRun(job: Job, run: seq<State>, t: State, n: nat) returns (more: seq<State>)
    requires job.nReduce > 0 && Run(job, run) && Leads(job, run[|run| - 1], t, n)
    ensures Run(job, run + more) && (run + more)[|run + more| - 1] == t
    decreases n
  {
    hide Next;
    if n == 0 {
      more := [];
      assert run + more == run;
    } else {
      var u :| Next(job, run[|run| - 1], u) && Leads(job, u, t, n - 1);
      var longer := run + [u];
      forall i | 0 <= i < |longer| - 1 ensures Next(job, longer[i], longer[i + 1]) {
        if i < |run| - 1 { assert Next(job, run[i], run[i + 1]); }
      }
      var rest := LeadsRun(job, longer, t, n - 1);
      more := [u] + rest;
      assert run + more == longer + rest;
    }
  }

  /**
   * Every run can be continued to one at the end of which all tasks are done, so that no crash, delay or report
   * leads to a state from which the job cannot be finished.
   */
  lemma CanBeFinished(job: Job, run: seq<State>) returns (more: seq<State>)
    requires WellFormed(job) && Run(job, run)
    ensures Run(job, run + more) && Done((run + more)[|run + more| - 1])
  {
    hide Leads, OrderBlind, Inv, Next, HoldsLock;
    var s := run[|run| - 1];
    RunKeepsInv(job, run, |run| - 1);
    RunKeepsLocks(job, run, |run| - 1);
    var u := Release(job, s);
    CanKeepsInv(job, s, u);
    var t := DoAll(job, u);
    CanOn(job, s, u, t);
    var n: nat :| Leads(job, s, t, n);
    more := LeadsRun(job, run, t, n);
  }

  /** A worker can crash at any moment, and the job can be finished all the same; only handlers do not crash. */
  lemma CrashIsSurvived(job: Job, run: seq<State>, p: nat) returns (more: seq<State>)
    requires WellFormed(job) && Run(job, run) && p in run[|run| - 1].procs
    requires var q := run[|run| - 1].procs[p]; q.Asking? || q.Mapping? || q.Reading? || q.Writing? || q.Reporting?
    ensures more != [] && more[0] == run[|run| - 1].(procs := run[|run| - 1].procs - {p})
    ensures Run(job, run + more) && Done((run + more)[|run + more| - 1])
  {
    hide OrderBlind, Acts, Done;
    var s := run[|run| - 1];
    var t := s.(procs := s.procs - {p});
    assert Next(job, s, t);
    assert Run(job, run + [t]) by {
      forall i | 0 <= i < |run + [t]| - 1 ensures Next(job, (run + [t])[i], (run + [t])[i + 1]) {
        if i < |run| - 1 { assert Next(job, run[i], run[i + 1]); }
      }
    }
    var rest := CanBeFinished(job, run + [t]);
    more := [t] + rest;
    assert run + more == run + [t] + rest;
  }

  // ----- the scan that answers Done

  lemma CommittedStays(job: Job, s: State, t: State, a: nat)
    requires WellFormed(job) && Inv(job, s) && Next(job, s, t) && Committed(s.g, a)
    ensures Committed(t.g, a)
  {
    hide Moves, OrderBlind, MayCrash, GlobalOk, ProcOk, MapsDone, Committed, NotListed, Apart, Acts;
    var p: nat :|
      || (p !in s.procs && t == s.(procs := s.procs[p := Asking(-1)]))
      || (p in s.procs && MayCrash(s.procs[p]) && t == s.(procs := s.procs - {p}))
      || (p in s.procs && Moves(job, s, p, t));
    if p in s.procs && Moves(job, s, p, t) {
      assert ProcOk(job, s.g, s.procs[p]);
      MovesActs(job, s, p, t);
      ActsAreGood(job, s, p, t.g, t.procs[p]);
    }
  }

  lemma {:induction false} CommittedLater(job: Job, run: seq<State>, i: nat, j: nat, a: nat)
    requires WellFormed(job) && Run(job, run) && i <= j < |run| && Committed(run[i].g, a)
    ensures Committed(run[j].g, a)
    decreases j
  {
    hide Next, Inv, OrderBlind, Committed;
    if i < j {
      CommittedLater(job, run, i, j - 1, a);
      RunKeepsInv(job, run, j - 1);
      CommittedStays(job, run[j - 1], run[j], a);
    }
  }

  /**
   * `Done` takes the tasks' locks one after the other, at the moments `at`. If it has seen every task done, all are
   * at its end, and the output files hold what the sequential program writes.
   */
  lemma ScanIsDone(job: Job, run: seq<State>, at: seq<nat>, sorted: seq<KeyValue>)
    requires WellFormed(job) && Run(job, run) && |at| == Maps(job) + job.nReduce
    requires forall a | 0 <= a < |at| :: at[a] < |run| && Committed(run[at[a]].g, a)
    requires SortedByKey(sorted) && multiset(sorted) == multiset(EmittedUpTo(job, Maps(job)))
    ensures Done(run[|run| - 1])
    ensures TotalLines(OutputLines(job, run[|run| - 1].g), job.nReduce) == multiset(Groups(job.app, sorted))
  {
    hide Next, Inv, OrderBlind, Groups, SortedByKey, EmittedUpTo;
    var last := |run| - 1;
    RunKeepsInv(job, run, last);
    SizedLast(job, run[last]);
    forall a | 0 <= a < |at| ensures Committed(run[last].g, a) { CommittedLater(job, run, at[a], last, a); }
    forall i | 0 <= i < |run[last].g.tasks| ensures run[last].g.tasks[i].done && i !in run[last].g.locked {
      assert Committed(run[last].g, i);
    }
    DoneRefinesSequential(job, run, sorted);
  }

  lemma SizedLast(job: Job, s: State)
    requires job.nReduce > 0 && Inv(job, s)
    ensures Sized(job, s.g)
  {
    hide ProcOk, Apart;
    GlobalFacts(job, s.g);
  }
}
