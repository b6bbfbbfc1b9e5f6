/** What every reachable state of the distributed job satisfies. */
module MapReduceInvariant {
  import opened Grouping
  import opened MapReduceJob

  // ----- progress of the tasks

  /** A task whose completion has been counted. */
  predicate Committed(g: Shared, i: nat) {
    i < |g.tasks| && g.tasks[i].done && i !in g.locked
  }

  ghost function CommittedSet(g: Shared): set<nat> {
    set i: nat | i < |g.tasks| && Committed(g, i)
  }

  ghost predicate MapsDone(job: Job, g: Shared) {
    forall t: nat | t < Maps(job) :: Committed(g, t)
  }

  predicate Sized(job: Job, g: Shared) {
    |g.tasks| == Maps(job) + job.nReduce
  }

  function ReduceTask(job: Job, g: Shared, r: nat): Task
    requires Sized(job, g) && r < job.nReduce
  {
    g.tasks[Maps(job) + r]
  }

  ghost predicate TasksOk(job: Job, g: Shared) {
    && Sized(job, g)
    && (forall a | a in g.locked :: a < |g.tasks| && g.tasks[a].done)
    && g.workDone == |CommittedSet(g)|
    && (forall t: nat | t < Maps(job) :: g.tasks[t].files == [Input(t)])
    && (forall r: nat | r < job.nReduce && (ReduceTask(job, g, r).issued || ReduceTask(job, g, r).done) ::
        MapsDone(job, g))
  }

  // ----- accepted reports and the reduce tasks' lists

  ghost predicate IsAccepted(g: Shared, t: nat) {
    exists k :: 0 <= k < |g.accepted| && g.accepted[k].1 == t
  }

  /** The list of reduce task r: one file for each accepted report that has pairs for it. */
  ghost function FilesFor(job: Job, accepted: seq<(int, nat)>, r: nat): seq<FileName>
    requires job.nReduce > 0 && forall k | 0 <= k < |accepted| :: accepted[k].1 < Maps(job)
  {
    if accepted == [] then []
    else
      var (w, t) := accepted[|accepted| - 1];
      FilesFor(job, accepted[..|accepted| - 1], r) + (if Share(job, t, r) == [] then [] else [Intermediate(w, t, r)])
  }

  /** The pairs those files hold. */
  ghost function PairsFor(job: Job, accepted: seq<(int, nat)>, r: nat): seq<KeyValue>
    requires job.nReduce > 0 && forall k | 0 <= k < |accepted| :: accepted[k].1 < Maps(job)
  {
    if accepted == [] then []
    else PairsFor(job, accepted[..|accepted| - 1], r) + Share(job, accepted[|accepted| - 1].1, r)
  }

  ghost predicate HoldsShare(job: Job, g: Shared, w: int, t: nat, r: nat)
    requires t < Maps(job) && job.nReduce > 0
  {
    Share(job, t, r) != [] ==>
        Intermediate(w, t, r) in g.files && g.files[Intermediate(w, t, r)] == Pairs(Share(job, t, r))
  }

  ghost predicate AcceptedOk(job: Job, g: Shared)
    requires job.nReduce > 0
  {
    && (forall k | 0 <= k < |g.accepted| :: g.accepted[k].1 < Maps(job) && 0 <= g.accepted[k].0 < g.workers)
    && (forall j, k | 0 <= j < k < |g.accepted| :: g.accepted[j].1 != g.accepted[k].1)
    && (forall t: nat | t < Maps(job) :: Committed(g, t) <==> IsAccepted(g, t))
    && (forall k, r: nat | 0 <= k < |g.accepted| && r < job.nReduce ::
        HoldsShare(job, g, g.accepted[k].0, g.accepted[k].1, r))
  }

  ghost predicate ListsOk(job: Job, g: Shared)
    requires job.nReduce > 0
  {
    && Sized(job, g)
    && (forall k | 0 <= k < |g.accepted| :: g.accepted[k].1 < Maps(job))
    && forall r: nat | r < job.nReduce :: ReduceTask(job, g, r).files == FilesFor(job, g.accepted, r)
  }

  // ----- outputs

  /** The lines that reduce task r has to write, in some order. */
  ghost predicate GoodLines(job: Job, r: nat, lines: seq<Line>)
    requires job.nReduce > 0
  {
    multiset(lines) == multiset(ExpectedLines(job.app, ShareOfAll(job, r)))
  }

  ghost predicate OutputOk(job: Job, g: Shared, r: nat)
    requires job.nReduce > 0
  {
    Output(r) in g.files ==> g.files[Output(r)].Lines? && GoodLines(job, r, g.files[Output(r)].lines)
  }

  /** Reduce task r has written its output, or has nothing to write. */
  ghost predicate Reduced(job: Job, g: Shared, r: nat)
    requires job.nReduce > 0
  {
    r < job.nReduce && (Output(r) in g.files || ShareOfAll(job, r) == [])
  }

  ghost predicate OutputsOk(job: Job, g: Shared)
    requires job.nReduce > 0
  {
    && Sized(job, g)
    && (forall r: nat | r < job.nReduce :: OutputOk(job, g, r))
    && (forall r: nat | r < job.nReduce && ReduceTask(job, g, r).done :: Reduced(job, g, r))
  }

  ghost predicate GlobalOk(job: Job, g: Shared)
    requires job.nReduce > 0
  {
    TasksOk(job, g) && AcceptedOk(job, g) && ListsOk(job, g) && OutputsOk(job, g)
  }

  // ----- processes

  ghost predicate NotListed(g: Shared, w: int, t: nat) {
    forall k | 0 <= k < |g.accepted| :: g.accepted[k] != (w, t)
  }

  /** The files a map attempt has created for the reduce tasks before b. */
  ghost function NamesUpTo(job: Job, w: int, t: nat, b: nat): map<nat, FileName>
    requires t < Maps(job) && job.nReduce > 0
  {
    map r: nat | r < b && Share(job, t, r) != [] :: Intermediate(w, t, r)
  }

  ghost predicate SharesHeld(job: Job, g: Shared, w: int, t: nat, b: nat)
    requires t < Maps(job) && job.nReduce > 0
  {
    forall r: nat | r < b :: HoldsShare(job, g, w, t, r)
  }

  /** The pairs in a list of intermediate files. */
  ghost function PairsIn(job: Job, names: seq<FileName>): seq<KeyValue>
    requires job.nReduce > 0
  {
    if names == [] then []
    else
      var n := names[|names| - 1];
      PairsIn(job, names[..|names| - 1]) +
      (if n.Intermediate? && n.task < Maps(job) then Share(job, n.task, n.bucket) else [])
  }

  ghost predicate ProcOk(job: Job, g: Shared, q: Proc)
    requires job.nReduce > 0
  {
    && -1 <= q.id < g.workers && (!q.Asking? ==> 0 <= q.id)
    && match q
       case Asking(id) => true
       case Probing(id, mapPhase, i) => !mapPhase ==> Maps(job) <= i && MapsDone(job, g)
       case Mapping(id, t, b, created, outs) =>
         && t < Maps(job) && b <= job.nReduce && NotListed(g, id, t) && SharesHeld(job, g, id, t, b)
         && (created ==> b < job.nReduce && Share(job, t, b) != [])
         && outs == NamesUpTo(job, id, t, if created then b + 1 else b)
       case Reading(id, r, inputs, k, content) =>
         && r < job.nReduce && MapsDone(job, g) && Sized(job, g)
         && inputs == ReduceTask(job, g, r).files && k <= |inputs| && content == PairsIn(job, inputs[..k])
       case Writing(id, r, lines, written) =>
         && r < job.nReduce && MapsDone(job, g) && GoodLines(job, r, lines)
         && (written ==> Temp(id, r) in g.files && g.files[Temp(id, r)] == Lines(lines))
       case Reporting(id, isMap, task, outs) => ReportOk(job, g, id, isMap, task, outs)
       case Committing(id, isMap, task, outs) =>
         && ReportOk(job, g, id, isMap, task, outs)
         && Index(job, isMap, task) < |g.tasks| && g.tasks[Index(job, isMap, task)].done &&
             Index(job, isMap, task) in g.locked
  }

  ghost predicate ReportOk(job: Job, g: Shared, id: int, isMap: bool, task: nat, outs: map<nat, FileName>)
    requires job.nReduce > 0
  {
    if isMap then
      task < Maps(job) && NotListed(g, id, task) && SharesHeld(job, g, id, task, job.nReduce) &&
          outs == NamesUpTo(job, id, task, job.nReduce)
    else
      MapsDone(job, g) && Reduced(job, g, task)
  }

  /** Processes have ids of their own, and never hold the lock of the same task. */
  ghost predicate Apart(job: Job, a: Proc, b: Proc) {
    && (a.id >= 0 ==> a.id != b.id)
    && (a.Committing? && b.Committing? ==> Index(job, a.isMap, a.task) != Index(job, b.isMap, b.task))
  }

  ghost predicate Inv(job: Job, s: State)
    requires job.nReduce > 0
  {
    && GlobalOk(job, s.g)
    && (forall p | p in s.procs :: ProcOk(job, s.g, s.procs[p]))
    && (forall p, q | p in s.procs && q in s.procs && p != q :: Apart(job, s.procs[p], s.procs[q]))
  }

  // ----- what one process changes leaves the others as they are

  predicate OwnedBy(n: FileName, w: int) {
    (n.Intermediate? || n.Temp?) && n.worker == w
  }

  /** From g to h, the process with id w acted and released at most the lock of x. */
  ghost predicate Stable(job: Job, g: Shared, h: Shared, w: int, x: nat) {
    && Sized(job, g) && Sized(job, h) && g.workers <= h.workers
    && (forall i: nat | Committed(g, i) :: Committed(h, i))
    && (MapsDone(job, g) ==>
        forall r: nat | r < job.nReduce :: ReduceTask(job, h, r).files == ReduceTask(job, g, r).files)
    && (forall n | n in g.files && !OwnedBy(n, w) && !n.Output? :: n in h.files && h.files[n] == g.files[n])
    && (forall r: nat | Output(r) in g.files :: Output(r) in h.files)
    && (forall v: int, t: nat | v != w && NotListed(g, v, t) :: NotListed(h, v, t))
    && (forall a: nat | a in g.locked && a != x ::
        a in h.locked && a < |h.tasks| && (a < |g.tasks| && g.tasks[a].done ==> h.tasks[a].done))
  }

  lemma MapsDoneStable(job: Job, g: Shared, h: Shared, w: int, x: nat)
    requires Stable(job, g, h, w, x) && MapsDone(job, g)
    ensures MapsDone(job, h)
  {
    hide Committed, NotListed;
  }

  lemma HoldsStable(job: Job, g: Shared, h: Shared, w: int, x: nat, v: int, t: nat, r: nat)
    requires job.nReduce > 0 && t < Maps(job) && v != w && Stable(job, g, h, w, x) && HoldsShare(job, g, v, t, r)
    ensures HoldsShare(job, h, v, t, r)
  {
    hide Committed, NotListed, MapsDone, Share;
    assert !OwnedBy(Intermediate(v, t, r), w);
  }

  lemma ReportStable(
        job: Job, g: Shared, h: Shared, w: int, x: nat, v: int, isMap: bool, task: nat, outs: map<nat, FileName>)
    requires job.nReduce > 0 && v != w && Stable(job, g, h, w, x) && ReportOk(job, g, v, isMap, task, outs)
    ensures ReportOk(job, h, v, isMap, task, outs)
  {
    hide Committed, NotListed, HoldsShare, NamesUpTo, ShareOfAll;
    if isMap {
      forall r: nat | r < job.nReduce ensures HoldsShare(job, h, v, task, r) {
        HoldsStable(job, g, h, w, x, v, task, r);
      }
    } else {
      MapsDoneStable(job, g, h, w, x);
    }
  }

  lemma ProcStable(job: Job, g: Shared, h: Shared, w: int, x: nat, q: Proc)
    requires job.nReduce > 0 && (q.id >= 0 ==> q.id != w) && Stable(job, g, h, w, x) && ProcOk(job, g, q)
    requires q.Committing? ==> Index(job, q.isMap, q.task) != x
    ensures ProcOk(job, h, q)
  {
    hide Committed, NotListed, HoldsShare, NamesUpTo, PairsIn, GoodLines, ReportOk, MapsDone, Share;
    match q
    case Asking(id) =>
    case Probing(id, mapPhase, i) =>
      if !mapPhase { MapsDoneStable(job, g, h, w, x); }
    case Mapping(id, t, b, created, outs) =>
      forall r: nat | r < b ensures HoldsShare(job, h, id, t, r) {
        HoldsStable(job, g, h, w, x, id, t, r);
      }
    case Reading(id, r, inputs, k, content) =>
      MapsDoneStable(job, g, h, w, x);
    case Writing(id, r, lines, written) =>
      MapsDoneStable(job, g, h, w, x);
      assert !OwnedBy(Temp(id, r), w);
    case Reporting(id, isMap, task, outs) =>
      ReportStable(job, g, h, w, x, id, isMap, task, outs);
    case Committing(id, isMap, task, outs) =>
      ReportStable(job, g, h, w, x, id, isMap, task, outs);
  }
}
