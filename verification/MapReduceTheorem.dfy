/** What holds in every run of the distributed job, and what its output is. */
module MapReduceTheorem {
  import opened FiniteSets
  import opened Grouping
  import opened Buckets
  import opened MapReduceJob
  import opened MapReduceInvariant
  import opened MapReduceShares
  import opened MapReduceSteps
  import opened MapReduceMeaning

  /** The lock a process gives up with its next step, or one that nobody holds. */
  function Released(job: Job, g: Shared, q: Proc): nat {
    if q.Committing? then Index(job, q.isMap, q.task) else |g.tasks|
  }

  lemma ActsAreGood(job: Job, s: State, p: nat, h: Shared, q: Proc)
    requires WellFormed(job) && GlobalOk(job, s.g) && p in s.procs && ProcOk(job, s.g, s.procs[p]) &&
        Acts(job, s, p, h, q)
    ensures Good(job, s.g, h, s.procs[p].id, Released(job, s.g, s.procs[p]), q)
    ensures q.id == s.procs[p].id || (q.id == s.g.workers && s.procs[p].id == -1)
    ensures q.Committing? ==> Index(job, q.isMap, q.task) !in s.g.locked
  {
    hide Acts, Good, GlobalOk, ProcOk, OrderBlind;
    match s.procs[p]
    case Asking(_) => AskStepKeeps(job, s, p, h, q);
    case Probing(_, _, _) => AskStepKeeps(job, s, p, h, q);
    case Mapping(_, _, _, _, _) => MapStepKeeps(job, s, p, h, q);
    case Reading(_, _, _, _, _) => ReadStepKeeps(job, s, p, h, q);
    case Writing(_, _, _, _) => WriteStepKeeps(job, s, p, h, q);
    case Reporting(_, _, _, _) => ReportStepKeeps(job, s, p, h, q);
    case Committing(_, _, _, _) => CommitStepKeeps(job, s, p, h, q);
  }

  lemma OtherProcs(job: Job, s: State, p: nat, h: Shared, q: Proc, o: nat)
    requires WellFormed(job) && Inv(job, s) && p in s.procs && Acts(job, s, p, h, q) && o in s.procs && o != p
    ensures ProcOk(job, h, s.procs[o]) && Apart(job, s.procs[o], q) && Apart(job, q, s.procs[o])
  {
    hide Acts, GlobalOk, Stable, OrderBlind;
    assert ProcOk(job, s.g, s.procs[p]) && ProcOk(job, s.g, s.procs[o]);
    assert Apart(job, s.procs[o], s.procs[p]) && Apart(job, s.procs[p], s.procs[o]);
    ActsAreGood(job, s, p, h, q);
    CommittingIsLocked(job, s.g, s.procs[o]);
    ProcStable(job, s.g, h, s.procs[p].id, Released(job, s.g, s.procs[p]), s.procs[o]);
  }

  lemma CommittingIsLocked(job: Job, g: Shared, q: Proc)
    requires job.nReduce > 0 && ProcOk(job, g, q)
    ensures -1 <= q.id < g.workers
    ensures q.Committing? ==> Index(job, q.isMap, q.task) in g.locked && Index(job, q.isMap, q.task) < |g.tasks|
  {
    hide ReportOk, MapsDone, SharesHeld, NamesUpTo, PairsIn, GoodLines;
  }

  lemma MoveKeepsInv(job: Job, s: State, p: nat, t: State)
    requires WellFormed(job) && Inv(job, s) && p in s.procs && Moves(job, s, p, t)
    ensures Inv(job, t)
  {
    hide Acts, GlobalOk, ProcOk, Stable, OrderBlind, Apart;
    var q := t.procs[p];
    assert ProcOk(job, s.g, s.procs[p]);
    ActsAreGood(job, s, p, t.g, q);
    forall o | o in t.procs ensures ProcOk(job, t.g, t.procs[o]) {
      if o != p { OtherProcs(job, s, p, t.g, q, o); }
    }
    forall a, b | a in t.procs && b in t.procs && a != b ensures Apart(job, t.procs[a], t.procs[b]) {
      if a == p {
        OtherProcs(job, s, p, t.g, q, b);
      } else if b == p {
        OtherProcs(job, s, p, t.g, q, a);
      } else {
        assert Apart(job, s.procs[a], s.procs[b]);
      }
    }
  }

  lemma SpawnKeepsInv(job: Job, s: State, p: nat)
    requires job.nReduce > 0 && Inv(job, s)
    ensures p !in s.procs ==> Inv(job, s.(procs := s.procs[p := Asking(-1)]))
    ensures Inv(job, s.(procs := s.procs - {p}))
  {
    hide GlobalOk, ReportOk, MapsDone, SharesHeld, NamesUpTo, PairsIn, GoodLines;
    if p !in s.procs {
      var t := s.(procs := s.procs[p := Asking(-1)]);
      forall a, b | a in t.procs && b in t.procs && a != b ensures Apart(job, t.procs[a], t.procs[b]) {
        if a != p && b != p {
          assert Apart(job, s.procs[a], s.procs[b]);
        }
      }
    }
  }

  lemma StepKeepsInv(job: Job, s: State, t: State)
    requires WellFormed(job) && Inv(job, s) && Next(job, s, t)
    ensures Inv(job, t)
  {
    hide Inv, Moves, OrderBlind, MayCrash;
    var p: nat :|
      || (p !in s.procs && t == s.(procs := s.procs[p := Asking(-1)]))
      || (p in s.procs && MayCrash(s.procs[p]) && t == s.(procs := s.procs - {p}))
      || (p in s.procs && Moves(job, s, p, t));
    SpawnKeepsInv(job, s, p);
    if p in s.procs && Moves(job, s, p, t) {
      MoveKeepsInv(job, s, p, t);
    }
  }

  lemma StartInv(job: Job)
    requires job.nReduce > 0
    ensures Inv(job, Start(job))
  {
    hide Share, ShareOfAll;
    var g := Start(job).g;
    assert forall i: nat :: !Committed(g, i);
    assert CommittedSet(g) == {};
    assert TasksOk(job, g) by {
      assert forall r: nat | r < job.nReduce :: ReduceTask(job, g, r) == Task([], false, false);
    }
    assert forall t: nat :: !IsAccepted(g, t);
    assert AcceptedOk(job, g);
    assert ListsOk(job, g) && OutputsOk(job, g) by {
      assert forall r: nat | r < job.nReduce :: ReduceTask(job, g, r) == Task([], false, false);
    }
  }

  lemma {:induction false} RunKeepsInv(job: Job, run: seq<State>, k: nat)
    requires WellFormed(job) && Run(job, run) && k < |run|
    ensures Inv(job, run[k])
  {
    hide Inv, Next, OrderBlind;
    if k == 0 {
      StartInv(job);
    } else {
      RunKeepsInv(job, run, k - 1);
      StepKeepsInv(job, run[k - 1], run[k]);
    }
  }

  // ----- what the output is

  lemma OutputsAreExpected(job: Job, g: Shared)
    requires job.nReduce > 0 && GlobalOk(job, g) && forall i | 0 <= i < |g.tasks| :: g.tasks[i].done
    ensures TotalLines(OutputLines(job, g), job.nReduce) ==
        multiset(ExpectedLines(job.app, EmittedUpTo(job, Maps(job))))
  {
    hide TasksOk, AcceptedOk, ListsOk, Bucket, EmittedUpTo, ExpectedLines;
    GlobalFacts(job, g);
    var outputs := OutputLines(job, g);
    forall r | 0 <= r < job.nReduce
      ensures outputs[r] ==
        multiset(ExpectedLines(job.app, Bucket(job.app, EmittedUpTo(job, Maps(job)), job.nReduce, r))) {
      assert ReduceTask(job, g, r).done;
      assert OutputOk(job, g, r) && Reduced(job, g, r);
      if Output(r) !in g.files {
        NoLines(job.app);
      }
    }
    TotalIsExpected(job.app, EmittedUpTo(job, Maps(job)), job.nReduce, outputs);
  }

  lemma NoLines(app: App)
    ensures ExpectedLines(app, []) == {}
  {
  }

  /** The sequential program: all pairs in one place, sorted, reduced. */
  method Sequential(job: Job) returns (lines: seq<Line>)
    ensures RightLines(job, multiset(lines))
    ensures OrderBlind(job.app) ==> multiset(lines) == multiset(ExpectedLines(job.app, EmittedUpTo(job, Maps(job))))
  {
    hide ExpectedLines, Groups, OrderBlind, RightLines;
    var intermediate: seq<KeyValue> := [];
    for i := 0 to |job.inputs|
      invariant intermediate == EmittedUpTo(job, i)
    {
      var kva := job.app.mapf(job.inputs[i].0, job.inputs[i].1);
      intermediate := intermediate + kva;
    }
    var sorted := SortByKey(intermediate);
    lines := SequentialReduce(job.app, sorted);
    GroupsAreExpected(job.app, sorted);
    ExpectedAreRight(job, sorted);
    if OrderBlind(job.app) { SamePairsSameLines(job.app, sorted, intermediate); }
  }

  /**
   * Refinement: whatever the crashes, delays, reissues and duplicate reports of a run, once `Done` answers true the
   * lines over all output files are those that the sequential program writes, however either of them sorted.
   */
  lemma DoneRefinesSequential(job: Job, run: seq<State>, sorted: seq<KeyValue>)
    requires WellFormed(job) && Run(job, run) && Done(run[|run| - 1])
    requires SortedByKey(sorted) && multiset(sorted) == multiset(EmittedUpTo(job, Maps(job)))
    ensures TotalLines(OutputLines(job, run[|run| - 1].g), job.nReduce) == multiset(Groups(job.app, sorted))
  {
    hide GlobalOk, ProcOk, OrderBlind, SortedByKey, ExpectedLines, Groups, OutputLines, Apart;
    RunKeepsInv(job, run, |run| - 1);
    OutputsAreExpected(job, run[|run| - 1].g);
    GroupsAreExpected(job.app, sorted);
    SamePairsSameLines(job.app, sorted, EmittedUpTo(job, Maps(job)));
  }

  /**
   * And so the output files together have exactly one line for each key that map emits for some input, from all the
   * values that it emits with it; the line is in the file that the key's hash names.
   */
  lemma DoneIsRight(job: Job, run: seq<State>)
    requires WellFormed(job) && Run(job, run) && Done(run[|run| - 1])
    ensures var outputs := OutputLines(job, run[|run| - 1].g);
      && RightLines(job, TotalLines(outputs, job.nReduce))
      && forall r, l: Line | 0 <= r < job.nReduce && l in outputs[r] :: job.app.ihash(l.key) % job.nReduce == r
  {
    hide ProcOk, OrderBlind, ExpectedLines, RightLines, Apart, EmittedUpTo, TasksOk, AcceptedOk, ListsOk;
    RunKeepsInv(job, run, |run| - 1);
    var g := run[|run| - 1].g;
    OutputsAreExpected(job, g);
    ExpectedAreRight(job, EmittedUpTo(job, Maps(job)));
    var outputs := OutputLines(job, g);
    forall r, l: Line | 0 <= r < job.nReduce && l in outputs[r] ensures job.app.ihash(l.key) % job.nReduce == r {
      assert OutputOk(job, g, r);
      LinesOfBucket(job.app, EmittedUpTo(job, Maps(job)), job.nReduce, r);
    }
  }

  // ----- the two phases do not overlap

  /** Reduce task r was handed out, or some process works on it. */
  ghost predicate ReduceBegun(job: Job, s: State, r: nat)
    requires Sized(job, s.g) && r < job.nReduce
  {
    || ReduceTask(job, s.g, r).issued
    || exists p :: p in s.procs && WorksOn(s.procs[p], r)
  }

  predicate WorksOn(q: Proc, r: nat) {
    match q
    case Reading(_, task, _, _, _) => task == r
    case Writing(_, task, _, _) => task == r
    case Reporting(_, isMap, task, _) => !isMap && task == r
    case Committing(_, isMap, task, _) => !isMap && task == r
    case _ => false
  }

  /** No reduce task is handed out before every map task is done and counted. */
  lemma NoEarlyReduce(job: Job, run: seq<State>, k: nat, r: nat)
    requires WellFormed(job) && Run(job, run) && k < |run| && r < job.nReduce
    ensures Sized(job, run[k].g)
    ensures ReduceBegun(job, run[k], r) ==> MapsDone(job, run[k].g)
  {
    hide Next, OrderBlind, AcceptedOk, ListsOk, OutputsOk, Committed, PairsIn, GoodLines, Reduced, NamesUpTo;
    RunKeepsInv(job, run, k);
    var s := run[k];
    assert TasksOk(job, s.g);
    if !ReduceTask(job, s.g, r).issued && ReduceBegun(job, s, r) {
      var p :| p in s.procs && WorksOn(s.procs[p], r);
      assert ProcOk(job, s.g, s.procs[p]);
    }
  }

  /** Every listed file is there, complete. */
  ghost predicate ListReadable(job: Job, g: Shared, r: nat)
    requires Sized(job, g) && r < job.nReduce
  {
    forall k | 0 <= k < |ReduceTask(job, g, r).files| ::
      ReduceTask(job, g, r).files[k] in g.files && g.files[ReduceTask(job, g, r).files[k]].Pairs?
  }

  lemma InvListReadable(job: Job, g: Shared, r: nat)
    requires job.nReduce > 0 && GlobalOk(job, g) && r < job.nReduce
    ensures Sized(job, g) && ListReadable(job, g, r)
    ensures forall k | 0 <= k < |ReduceTask(job, g, r).files| :: var n := ReduceTask(job, g, r).files[k];
      n.Intermediate? && n.task < Maps(job) && g.files[n] == Pairs(Share(job, n.task, r))
  {
    hide TasksOk, AcceptedOk, ListsOk, OutputsOk, Share;
    GlobalFacts(job, g);
    forall k | 0 <= k < |ReduceTask(job, g, r).files|
      ensures var n := ReduceTask(job, g, r).files[k];
        n in g.files && n.Intermediate? && n.task < Maps(job) && g.files[n] == Pairs(Share(job, n.task, r))
    {
      NextReadable(job, g, r, k);
    }
  }

  /** A reduce attempt can always read its next file: the fatal decoding errors are unreachable. */
  lemma ReadersNeverFail(job: Job, run: seq<State>, k: nat, p: nat)
    requires WellFormed(job) && Run(job, run) && k < |run| && p in run[k].procs && run[k].procs[p].Reading?
    ensures var Reading(_, _, inputs, i, _) := run[k].procs[p];
      i < |inputs| ==> inputs[i] in run[k].g.files && run[k].g.files[inputs[i]].Pairs?
  {
    hide Next, OrderBlind, GlobalOk, MapsDone, PairsIn, GoodLines, Share;
    RunKeepsInv(job, run, k);
    assert ProcOk(job, run[k].g, run[k].procs[p]);
    InvListReadable(job, run[k].g, run[k].procs[p].task);
  }

  /** Once a reduce task has begun, neither its list nor the listed files change. */
  lemma FrozenOnceBegun(job: Job, run: seq<State>, k: nat, r: nat)
    requires WellFormed(job) && Run(job, run) && k + 1 < |run| && r < job.nReduce
    requires Sized(job, run[k].g) && ReduceBegun(job, run[k], r)
    ensures Sized(job, run[k + 1].g) && ReduceTask(job, run[k + 1].g, r).files == ReduceTask(job, run[k].g, r).files
    ensures forall n | n in ReduceTask(job, run[k].g, r).files ::
      n in run[k].g.files && n in run[k + 1].g.files && run[k + 1].g.files[n] == run[k].g.files[n]
  {
    hide Next, OrderBlind, GlobalOk, ProcOk, MapsDone, Share, ReduceBegun, Run;
    var s, t := run[k], run[k + 1];
    NoEarlyReduce(job, run, k, r);
    RunKeepsInv(job, run, k);
    RunKeepsInv(job, run, k + 1);
    NextOf(job, run, k);
    ListsStay(job, s, t);
    InvListReadable(job, s.g, r);
    InvListReadable(job, t.g, r);
  }

  lemma NextOf(job: Job, run: seq<State>, k: nat)
    requires job.nReduce > 0 && Run(job, run) && k + 1 < |run|
    ensures Next(job, run[k], run[k + 1])
  {
    hide Next;
  }

  lemma ListsStay(job: Job, s: State, t: State)
    requires WellFormed(job) && Inv(job, s) && Next(job, s, t) && MapsDone(job, s.g)
    ensures Sized(job, s.g) && Sized(job, t.g)
    ensures forall r: nat | r < job.nReduce :: ReduceTask(job, t.g, r).files == ReduceTask(job, s.g, r).files
  {
    hide Moves, OrderBlind, MayCrash, GlobalOk, ProcOk, MapsDone, Committed, NotListed, Apart, Acts;
    GlobalFacts(job, s.g);
    var p: nat :|
      || (p !in s.procs && t == s.(procs := s.procs[p := Asking(-1)]))
      || (p in s.procs && MayCrash(s.procs[p]) && t == s.(procs := s.procs - {p}))
      || (p in s.procs && Moves(job, s, p, t));
    if p in s.procs && Moves(job, s, p, t) {
      assert ProcOk(job, s.g, s.procs[p]);
      MovesActs(job, s, p, t);
      ActsAreGood(job, s, p, t.g, t.procs[p]);
    }
  }

  lemma MovesActs(job: Job, s: State, p: nat, t: State)
    requires job.nReduce > 0 && p in s.procs && Moves(job, s, p, t)
    ensures p in t.procs && Acts(job, s, p, t.g, t.procs[p])
  {
    hide Acts;
  }

  // ----- one accepted attempt for each map task

  lemma {:induction false} FilesForHas(job: Job, a: seq<(int, nat)>, r: nat, k: nat)
    requires InJob(job, a) && k < |a|
    ensures Share(job, a[k].1, r) != [] ==> Intermediate(a[k].0, a[k].1, r) in FilesFor(job, a, r)
    decreases |a|
  {
    hide Share;
    if k < |a| - 1 {
      FilesForHas(job, a[..|a| - 1], r, k);
    }
  }

  lemma {:induction false} FilesForOnce(job: Job, a: seq<(int, nat)>, r: nat)
    requires InJob(job, a) && forall i, j | 0 <= i < j < |a| :: a[i].1 != a[j].1
    ensures Distinct(FilesFor(job, a, r))
    decreases |a|
  {
    hide Share;
    if a != [] {
      var b, e := a[..|a| - 1], a[|a| - 1];
      FilesForOnce(job, b, r);
      var before := FilesFor(job, b, r);
      forall i | 0 <= i < |before| ensures before[i] != Intermediate(e.0, e.1, r) {
        var k := FilesForAt(job, b, r, i);
      }
    }
  }

  /**
   * When all map tasks are done there is one worker whose attempt at map task t was accepted, and each reduce
   * task's list holds exactly one file for t, that worker's, if t emitted anything for it, and otherwise none.
   */
  lemma OneFilePerMap(job: Job, run: seq<State>, i: nat, t: nat) returns (w: int)
    requires WellFormed(job) && Run(job, run) && i < |run| && t < Maps(job) && MapsDone(job, run[i].g)
    ensures Sized(job, run[i].g)
    ensures forall r: nat | r < job.nReduce :: var files := ReduceTask(job, run[i].g, r).files;
      && Distinct(files)
      && (Intermediate(w, t, r) in files <==> Share(job, t, r) != [])
      && (forall n | n in files && n.Intermediate? && n.task == t :: n == Intermediate(w, t, r))
  {
    hide Next, OrderBlind, ProcOk, Share, TasksOk, OutputsOk, FilesFor, HoldsShare, Apart;
    RunKeepsInv(job, run, i);
    var g := run[i].g;
    GlobalFacts(job, g);
    assert Committed(g, t) && IsAccepted(g, t);
    var k :| 0 <= k < |g.accepted| && g.accepted[k].1 == t;
    w := g.accepted[k].0;
    forall r: nat | r < job.nReduce
      ensures var files := ReduceTask(job, g, r).files;
        && Distinct(files) && (Intermediate(w, t, r) in files <==> Share(job, t, r) != [])
        && (forall n | n in files && n.Intermediate? && n.task == t :: n == Intermediate(w, t, r))
    {
      var files := ReduceTask(job, g, r).files;
      ListIs(job, g, r);
      FilesForHas(job, g.accepted, r, k);
      FilesForOnce(job, g.accepted, r);
      forall n | n in files && n.Intermediate? && n.task == t
        ensures n == Intermediate(w, t, r) && Share(job, t, r) != [] {
        var x :| 0 <= x < |files| && files[x] == n;
        var j := FilesForAt(job, g.accepted, r, x);
        assert j == k;
      }
    }
  }
}
