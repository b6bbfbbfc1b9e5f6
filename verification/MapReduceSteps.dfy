/** Every step of the distributed job keeps the invariant. */
module MapReduceSteps {
  import opened FiniteSets
  import opened Grouping
  import opened MapReduceJob
  import opened MapReduceInvariant
  import opened MapReduceShares

  /** What a step of a process with id w must establish. */
  ghost predicate Good(job: Job, g: Shared, h: Shared, w: int, x: nat, q: Proc)
    requires job.nReduce > 0
  {
    GlobalOk(job, h) && Stable(job, g, h, w, x) && ProcOk(job, h, q)
  }

  lemma SameStable(job: Job, g: Shared, w: int, x: nat)
    requires Sized(job, g) && forall a | a in g.locked :: a < |g.tasks|
    ensures Stable(job, g, g, w, x)
  {
    hide Committed, NotListed, MapsDone;
  }

  lemma GlobalFacts(job: Job, g: Shared)
    requires job.nReduce > 0 && GlobalOk(job, g)
    ensures TasksOk(job, g) && AcceptedOk(job, g) && ListsOk(job, g) && OutputsOk(job, g)
    ensures Sized(job, g) && (forall a | a in g.locked :: a < |g.tasks|)
  {
    hide AcceptedOk, ListsOk, OutputsOk, CommittedSet, MapsDone;
  }

  // ----- the coordinator hands out ids, phases and tasks

  lemma RegisterKeeps(job: Job, g: Shared)
    requires job.nReduce > 0 && GlobalOk(job, g)
    ensures Good(job, g, g.(workers := g.workers + 1), -1, |g.tasks|, Asking(g.workers))
  {
    hide FilesFor, Share, ExpectedLines, ShareOfAll, GoodLines, TasksOk, HoldsShare, MapsDone;
    GlobalFacts(job, g);
    var h := g.(workers := g.workers + 1);
    assert forall i: nat :: Committed(h, i) == Committed(g, i);
    TasksKept(job, g, h);
    assert forall t :: IsAccepted(h, t) == IsAccepted(g, t);
    forall w: int, t: nat, r: nat | t < Maps(job) ensures HoldsShare(job, h, w, t, r) == HoldsShare(job, g, w, t, r) {
      HoldsSame(job, g, h, w, t, r);
    }
    assert forall v: int, t: nat :: NotListed(h, v, t) == NotListed(g, v, t);
    assert forall r: nat | r < job.nReduce :: ReduceTask(job, h, r) == ReduceTask(job, g, r);
    assert forall r: nat :: OutputOk(job, h, r) == OutputOk(job, g, r) && Reduced(job, h, r) == Reduced(job, g, r);
  }

  lemma HoldsSame(job: Job, g: Shared, h: Shared, w: int, t: nat, r: nat)
    requires t < Maps(job) && job.nReduce > 0 && h.files == g.files
    ensures HoldsShare(job, h, w, t, r) == HoldsShare(job, g, w, t, r)
  {
  }

  /** What is said about the tasks does not depend on files, lists and workers. */
  lemma TasksKept(job: Job, g: Shared, h: Shared)
    requires TasksOk(job, g) && h.workDone == g.workDone && h.locked == g.locked && h.tasks == g.tasks
    ensures TasksOk(job, h) && MapsDone(job, h) == MapsDone(job, g)
  {
    assert forall i: nat :: Committed(h, i) == Committed(g, i);
    assert CommittedSet(h) == CommittedSet(g);
    assert forall r: nat | r < job.nReduce :: ReduceTask(job, h, r) == ReduceTask(job, g, r);
  }

  /** Once as many tasks are counted as there are map tasks, all of them are map tasks. */
  lemma CountedAllMaps(job: Job, g: Shared)
    requires TasksOk(job, g) && g.workDone >= Maps(job)
    ensures MapsDone(job, g)
  {
    var c := CommittedSet(g);
    if i :| i in c && i >= Maps(job) {
      assert ReduceTask(job, g, i - Maps(job)).done;
    } else {
      BoundedSetSize(c, Maps(job));
      forall t: nat | t < Maps(job) ensures Committed(g, t) {
        assert t in c;
      }
    }
  }

  lemma IssueKeepsTasks(job: Job, g: Shared, i: nat)
    requires job.nReduce > 0 && GlobalOk(job, g) && i < |g.tasks| && (i >= Maps(job) ==> MapsDone(job, g))
    ensures var h := g.(tasks := g.tasks[i := g.tasks[i].(issued := true)]);
      TasksOk(job, h) && (forall k: nat :: Committed(h, k) == Committed(g, k)) && MapsDone(job, h) == MapsDone(job, g)
  {
    hide AcceptedOk, ListsOk, OutputsOk;
    GlobalFacts(job, g);
    var h := g.(tasks := g.tasks[i := g.tasks[i].(issued := true)]);
    assert forall k: nat :: Committed(h, k) == Committed(g, k);
    assert CommittedSet(h) == CommittedSet(g);
    forall r: nat | r < job.nReduce && (ReduceTask(job, h, r).issued || ReduceTask(job, h, r).done)
      ensures MapsDone(job, h) {
      if Maps(job) + r != i {
        assert ReduceTask(job, h, r) == ReduceTask(job, g, r);
      }
    }
  }

  /** Nothing but the flags of one task changed. */
  ghost predicate OnlyFlags(g: Shared, h: Shared, i: nat) {
    && i < |g.tasks| == |h.tasks| && h.files == g.files && h.accepted == g.accepted && h.workers == g.workers
    && (forall k | 0 <= k < |g.tasks| :: h.tasks[k].files == g.tasks[k].files)
    && (forall k | 0 <= k < |g.tasks| && k != i :: h.tasks[k] == g.tasks[k])
  }

  lemma FlagsKeepRest(job: Job, g: Shared, h: Shared, i: nat, w: int)
    requires job.nReduce > 0 && GlobalOk(job, g) && OnlyFlags(g, h, i) && TasksOk(job, h)
    requires forall k: nat :: Committed(h, k) == Committed(g, k)
    requires h.tasks[i].done == g.tasks[i].done ||
        (h.tasks[i].done && (i >= Maps(job) ==> Reduced(job, g, i - Maps(job))))
    requires g.locked <= h.locked
    ensures GlobalOk(job, h) && Stable(job, g, h, w, |g.tasks|)
  {
    hide Committed, FilesFor, Share, GoodLines, TasksOk, ShareOfAll;
    GlobalFacts(job, g);
    GlobalTasks(job, h);
    assert MapsDone(job, h) == MapsDone(job, g);
    assert forall t :: IsAccepted(h, t) == IsAccepted(g, t);
    assert forall v, t: nat, r: nat | t < Maps(job) :: HoldsShare(job, h, v, t, r) == HoldsShare(job, g, v, t, r);
    assert forall v: int, t: nat :: NotListed(h, v, t) == NotListed(g, v, t);
    assert forall r: nat :: OutputOk(job, h, r) == OutputOk(job, g, r) && Reduced(job, h, r) == Reduced(job, g, r);
    forall r: nat | r < job.nReduce && ReduceTask(job, h, r).done ensures Reduced(job, h, r) {
      if Maps(job) + r != i { assert ReduceTask(job, g, r).done; }
    }
  }

  lemma GlobalTasks(job: Job, g: Shared)
    requires TasksOk(job, g)
    ensures Sized(job, g) && forall a | a in g.locked :: a < |g.tasks| && g.tasks[a].done
  {
    hide CommittedSet, MapsDone;
  }

  lemma IssueKeeps(job: Job, g: Shared, id: int, i: nat)
    requires job.nReduce > 0 && GlobalOk(job, g) && 0 <= id < g.workers && i < |g.tasks|
    requires (i >= Maps(job) ==> MapsDone(job, g)) && !g.tasks[i].done
    ensures var (h, q) := Issue(job, g, id, i); Good(job, g, h, id, |g.tasks|, q)
  {
    hide Committed, CommittedSet, TasksOk, AcceptedOk, ListsOk, OutputsOk, MapsDone, Share;
    GlobalFacts(job, g);
    var (h, q) := Issue(job, g, id, i);
    IssueKeepsTasks(job, g, i);
    FlagsKeepRest(job, g, h, i, id);
    if i < Maps(job) {
      NotDoneNotListed(job, g, id, i);
      assert NamesUpTo(job, id, i, 0) == map[];
    } else {
      assert PairsIn(job, []) == [];
    }
  }

  lemma NotDoneNotListed(job: Job, g: Shared, id: int, t: nat)
    requires job.nReduce > 0 && AcceptedOk(job, g) && t < Maps(job) && t < |g.tasks| && !g.tasks[t].done
    ensures NotListed(g, id, t)
  {
    hide HoldsShare;
    assert !Committed(g, t) && !IsAccepted(g, t);
  }

  // ----- files

  /** Writing a file that nothing accepted refers to, and that is not an output. */
  lemma WriteKeeps(job: Job, g: Shared, n: FileName, c: Content, w: int)
    requires job.nReduce > 0 && GlobalOk(job, g) && OwnedBy(n, w) && (n.Intermediate? ==> NotListed(g, w, n.task))
    ensures var h := g.(files := g.files[n := c]);
      GlobalOk(job, h) && Stable(job, g, h, w, |g.tasks|) && (MapsDone(job, g) <==> MapsDone(job, h))
  {
    hide Committed, FilesFor, Share, GoodLines, TasksOk, ShareOfAll, MapsDone;
    GlobalFacts(job, g);
    var h := g.(files := g.files[n := c]);
    TasksKept(job, g, h);
    CommittedSame(g, h);
    assert forall t :: IsAccepted(h, t) == IsAccepted(g, t);
    forall k, r: nat | 0 <= k < |g.accepted| && r < job.nReduce
      ensures HoldsShare(job, h, h.accepted[k].0, h.accepted[k].1, r) {
      assert HoldsShare(job, g, g.accepted[k].0, g.accepted[k].1, r);
      assert Intermediate(g.accepted[k].0, g.accepted[k].1, r) != n;
    }
    assert forall v: int, t: nat :: NotListed(h, v, t) == NotListed(g, v, t);
    assert forall r: nat | r < job.nReduce :: ReduceTask(job, h, r) == ReduceTask(job, g, r);
    assert forall r: nat :: OutputOk(job, h, r) == OutputOk(job, g, r) && Reduced(job, h, r) == Reduced(job, g, r);
  }

  lemma CommittedSame(g: Shared, h: Shared)
    requires h.tasks == g.tasks && h.locked == g.locked
    ensures forall i: nat :: Committed(h, i) == Committed(g, i)
  {
  }

  lemma SharesStill(job: Job, g: Shared, n: FileName, c: Content, w: int, t: nat, b: nat)
    requires job.nReduce > 0 && t < Maps(job) && SharesHeld(job, g, w, t, b) && n == Intermediate(w, t, b)
    ensures SharesHeld(job, g.(files := g.files[n := c]), w, t, b)
    ensures c == Pairs(Share(job, t, b)) ==> SharesHeld(job, g.(files := g.files[n := c]), w, t, b + 1)
  {
    hide Share;
    var h := g.(files := g.files[n := c]);
    forall r: nat | r < b ensures HoldsShare(job, h, w, t, r) {
      assert HoldsShare(job, g, w, t, r);
    }
  }

  lemma NamesNext(job: Job, w: int, t: nat, b: nat)
    requires job.nReduce > 0 && t < Maps(job)
    ensures Share(job, t, b) != [] ==>
        NamesUpTo(job, w, t, b + 1) == NamesUpTo(job, w, t, b)[b := Intermediate(w, t, b)]
    ensures Share(job, t, b) == [] ==> NamesUpTo(job, w, t, b + 1) == NamesUpTo(job, w, t, b)
  {
    hide Share;
  }

  /** A map attempt creates a file, writes it, or passes over an empty bucket. */
  lemma MapStepKeeps(job: Job, s: State, p: nat, h: Shared, q: Proc)
    requires job.nReduce > 0 && GlobalOk(job, s.g) && p in s.procs && ProcOk(job, s.g, s.procs[p])
    requires s.procs[p].Mapping? && Acts(job, s, p, h, q)
    ensures Good(job, s.g, h, s.procs[p].id, |s.g.tasks|, q) && q.id == s.procs[p].id && !q.Committing?
  {
    hide Committed, TasksOk, AcceptedOk, ListsOk, OutputsOk, MapsDone, Share, Stable, HoldsShare, SharesHeld, NamesUpTo,
        GlobalOk, NotListed;
    var Mapping(id, t, b, created, outs) := s.procs[p];
    var g := s.g;
    GlobalFacts(job, g);
    SameStable(job, g, id, |g.tasks|);
    if b < job.nReduce {
      var n := Intermediate(id, t, b);
      NamesNext(job, id, t, b);
      if created {
        WriteKeeps(job, g, n, Pairs(Share(job, t, b)), id);
        SharesStill(job, g, n, Pairs(Share(job, t, b)), id, t, b);
        NotListedSame(g, h, id, t);
      } else if Share(job, t, b) == [] {
        EmptyShareHeld(job, g, id, t, b);
      } else {
        WriteKeeps(job, g, n, Unfinished, id);
        SharesStill(job, g, n, Unfinished, id, t, b);
        NotListedSame(g, h, id, t);
      }
    }
  }

  lemma NotListedSame(g: Shared, h: Shared, w: int, t: nat)
    requires h.accepted == g.accepted
    ensures NotListed(h, w, t) == NotListed(g, w, t)
  {
  }

  lemma EmptyShareHeld(job: Job, g: Shared, w: int, t: nat, b: nat)
    requires job.nReduce > 0 && t < Maps(job) && SharesHeld(job, g, w, t, b) && Share(job, t, b) == []
    ensures SharesHeld(job, g, w, t, b + 1)
  {
    hide Share;
  }

  // ----- reduce attempts

  lemma PrefixSnoc<T>(s: seq<T>, k: nat)
    requires k < |s|
    ensures s[..k + 1] == s[..k] + [s[k]]
  {
  }

  lemma ListIs(job: Job, g: Shared, r: nat)
    requires job.nReduce > 0 && ListsOk(job, g) && r < job.nReduce
    ensures InJob(job, g.accepted) && Sized(job, g) && ReduceTask(job, g, r).files == FilesFor(job, g.accepted, r)
  {
  }

  /** A reduce attempt reads the next file, or has nothing to read, or has read everything. */
  lemma ReadStepKeeps(job: Job, s: State, p: nat, h: Shared, q: Proc)
    requires WellFormed(job) && GlobalOk(job, s.g) && p in s.procs && ProcOk(job, s.g, s.procs[p])
    requires s.procs[p].Reading? && Acts(job, s, p, h, q)
    ensures Good(job, s.g, h, s.procs[p].id, |s.g.tasks|, q) && q.id == s.procs[p].id && !q.Committing?
  {
    hide Committed, TasksOk, AcceptedOk, ListsOk, OutputsOk, MapsDone, Share, Stable, GlobalOk, FilesFor, PairsFor,
        PairsIn, ShareOfAll,
      LinesOf, GoodLines, OrderBlind;
    var Reading(id, r, inputs, k, content) := s.procs[p];
    var g := s.g;
    GlobalFacts(job, g);
    ListIs(job, g, r);
    SameStable(job, g, id, |g.tasks|);
    PairsInFiles(job, g.accepted, r);
    AcceptedPairs(job, g, r);
    if inputs == [] {
      assert PairsIn(job, []) == [] by { NothingIn(job); }
      EmptyMultiset(ShareOfAll(job, r));
    } else if k < |inputs| {
      PrefixSnoc(inputs, k);
      PairsInSnoc(job, inputs[..k], inputs[k]);
      NextReadable(job, g, r, k);
    } else {
      assert inputs[..k] == inputs;
      LinesAreGood(job, g, r, content, q.lines);
      WriteKeeps(job, g, Temp(id, r), Unfinished, id);
    }
  }

  lemma NothingIn(job: Job)
    requires job.nReduce > 0
    ensures PairsIn(job, []) == []
  {
  }

  lemma EmptyMultiset<T>(s: seq<T>)
    requires multiset(s) == multiset([])
    ensures s == []
  {
    assert |multiset(s)| == |s|;
  }

  lemma RenameKeeps(job: Job, g: Shared, id: int, r: nat, lines: seq<Line>)
    requires job.nReduce > 0 && GlobalOk(job, g) && r < job.nReduce && GoodLines(job, r, lines)
    requires Temp(id, r) in g.files && g.files[Temp(id, r)] == Lines(lines)
    ensures var h := g.(files := (g.files - {Temp(id, r)})[Output(r) := g.files[Temp(id, r)]]);
      GlobalOk(job, h) && Stable(job, g, h, id, |g.tasks|) && MapsDone(job, h) == MapsDone(job, g) && Reduced(job, h, r)
  {
    hide Committed, FilesFor, Share, GoodLines, TasksOk, ShareOfAll, MapsDone;
    GlobalFacts(job, g);
    var h := g.(files := (g.files - {Temp(id, r)})[Output(r) := g.files[Temp(id, r)]]);
    TasksKept(job, g, h);
    CommittedSame(g, h);
    assert forall t :: IsAccepted(h, t) == IsAccepted(g, t);
    forall k, b: nat | 0 <= k < |g.accepted| && b < job.nReduce
      ensures HoldsShare(job, h, h.accepted[k].0, h.accepted[k].1, b) {
      assert HoldsShare(job, g, g.accepted[k].0, g.accepted[k].1, b);
    }
    assert forall v: int, t: nat :: NotListed(h, v, t) == NotListed(g, v, t);
    assert forall b: nat | b < job.nReduce :: ReduceTask(job, h, b) == ReduceTask(job, g, b);
    forall b: nat | b < job.nReduce ensures OutputOk(job, h, b) && (Reduced(job, g, b) ==> Reduced(job, h, b)) {
      assert OutputOk(job, g, b);
    }
  }

  lemma WriteStepKeeps(job: Job, s: State, p: nat, h: Shared, q: Proc)
    requires job.nReduce > 0 && GlobalOk(job, s.g) && p in s.procs && ProcOk(job, s.g, s.procs[p])
    requires s.procs[p].Writing? && Acts(job, s, p, h, q)
    ensures Good(job, s.g, h, s.procs[p].id, |s.g.tasks|, q) && q.id == s.procs[p].id && !q.Committing?
  {
    hide Committed, TasksOk, AcceptedOk, ListsOk, OutputsOk, MapsDone, Share, Stable, GlobalOk, ShareOfAll, GoodLines,
        Reduced;
    var Writing(id, r, lines, written) := s.procs[p];
    if written {
      RenameKeeps(job, s.g, id, r, lines);
    } else {
      WriteKeeps(job, s.g, Temp(id, r), Lines(lines), id);
    }
  }

  // ----- reports

  lemma MarkKeepsTasks(job: Job, g: Shared, a: nat)
    requires job.nReduce > 0 && TasksOk(job, g) && a < |g.tasks| && a !in g.locked && !g.tasks[a].done
    requires a >= Maps(job) ==> MapsDone(job, g)
    ensures TasksOk(job, Mark(g, a)) && (forall k: nat :: Committed(Mark(g, a), k) == Committed(g, k))
  {
    var h := Mark(g, a);
    assert forall k: nat :: Committed(h, k) == Committed(g, k);
    assert CommittedSet(h) == CommittedSet(g);
    forall r: nat | r < job.nReduce && (ReduceTask(job, h, r).issued || ReduceTask(job, h, r).done)
      ensures MapsDone(job, h) {
      if Maps(job) + r != a {
        assert ReduceTask(job, h, r) == ReduceTask(job, g, r);
      }
    }
  }

  lemma ReportStepKeeps(job: Job, s: State, p: nat, h: Shared, q: Proc)
    requires job.nReduce > 0 && GlobalOk(job, s.g) && p in s.procs && ProcOk(job, s.g, s.procs[p])
    requires s.procs[p].Reporting? && Acts(job, s, p, h, q)
    ensures Good(job, s.g, h, s.procs[p].id, |s.g.tasks|, q) && q.id == s.procs[p].id
    ensures q.Committing? ==> Index(job, q.isMap, q.task) !in s.g.locked
  {
    hide Committed, CommittedSet, TasksOk, AcceptedOk, ListsOk, OutputsOk, MapsDone, Share, Stable, GlobalOk, ReportOk;
    var Reporting(id, isMap, task, outs) := s.procs[p];
    var g, a := s.g, Index(job, isMap, task);
    GlobalFacts(job, g);
    SameStable(job, g, id, |g.tasks|);
    if !g.tasks[a].done {
      ReportIndex(job, g, id, isMap, task, outs);
      MarkKeepsTasks(job, g, a);
      FlagsKeepRest(job, g, h, a, id);
      ReportSame(job, g, h, id, isMap, task, outs);
    }
  }

  lemma ReportIndex(job: Job, g: Shared, id: int, isMap: bool, task: nat, outs: map<nat, FileName>)
    requires job.nReduce > 0 && ReportOk(job, g, id, isMap, task, outs)
    ensures var a := Index(job, isMap, task);
      a >= Maps(job) ==> MapsDone(job, g) && Reduced(job, g, a - Maps(job))
  {
    hide MapsDone, Reduced, SharesHeld, NamesUpTo;
  }

  lemma ReportSame(job: Job, g: Shared, h: Shared, id: int, isMap: bool, task: nat, outs: map<nat, FileName>)
    requires job.nReduce > 0 && ReportOk(job, g, id, isMap, task, outs)
    requires h.files == g.files && h.accepted == g.accepted && forall k: nat | Committed(g, k) :: Committed(h, k)
    ensures ReportOk(job, h, id, isMap, task, outs)
  {
    hide Committed, Share, NamesUpTo, ShareOfAll;
    if isMap {
      forall r: nat | r < job.nReduce ensures HoldsShare(job, h, id, task, r) {
        assert HoldsShare(job, g, id, task, r);
      }
    }
  }

  /** Counting a completed task. */
  lemma CommitKeepsTasks(job: Job, g: Shared, h: Shared, a: nat)
    requires job.nReduce > 0 && TasksOk(job, g) && a in g.locked && |h.tasks| == |g.tasks|
    requires h.workDone == g.workDone + 1 && h.locked == g.locked - {a}
    requires forall k | 0 <= k < |g.tasks| ::
        h.tasks[k].done == g.tasks[k].done && h.tasks[k].issued == g.tasks[k].issued
    requires forall k | 0 <= k < Maps(job) && k < |g.tasks| :: h.tasks[k].files == g.tasks[k].files
    ensures TasksOk(job, h) && (forall k: nat :: Committed(h, k) <==> Committed(g, k) || k == a) && !Committed(g, a)
  {
    assert forall k: nat :: Committed(h, k) <==> Committed(g, k) || k == a;
    assert CommittedSet(h) == CommittedSet(g) + {a};
    forall r: nat | r < job.nReduce && (ReduceTask(job, h, r).issued || ReduceTask(job, h, r).done)
      ensures MapsDone(job, h) {
      assert ReduceTask(job, g, r).issued || ReduceTask(job, g, r).done;
    }
  }

  /** A reduce task's report changes nothing else. */
  lemma CommitReduceKeeps(job: Job, g: Shared, id: int, task: nat, outs: map<nat, FileName>)
    requires job.nReduce > 0 && GlobalOk(job, g) && ReportOk(job, g, id, false, task, outs) &&
        Index(job, false, task) in g.locked
    ensures var h := Commit(job, g, id, false, task, outs);
        GlobalOk(job, h) && Stable(job, g, h, id, Index(job, false, task))
  {
    hide Committed, FilesFor, Share, GoodLines, TasksOk, ShareOfAll;
    var h, a := Commit(job, g, id, false, task, outs), Index(job, false, task);
    GlobalFacts(job, g);
    GlobalTasks(job, g);
    CommitKeepsTasks(job, g, h, a);
    assert forall t :: IsAccepted(h, t) == IsAccepted(g, t);
    assert forall v: int, t: nat, r: nat | t < Maps(job) :: HoldsShare(job, h, v, t, r) == HoldsShare(job, g, v, t, r);
    assert forall v: int, t: nat :: NotListed(h, v, t) == NotListed(g, v, t);
    assert forall r: nat | r < job.nReduce :: ReduceTask(job, h, r) == ReduceTask(job, g, r);
    assert forall r: nat :: OutputOk(job, h, r) == OutputOk(job, g, r) && Reduced(job, h, r) == Reduced(job, g, r);
  }

  lemma CommitMapLists(job: Job, g: Shared, id: int, task: nat)
    requires job.nReduce > 0 && ListsOk(job, g) && task < Maps(job)
    ensures ListsOk(job, Commit(job, g, id, true, task, NamesUpTo(job, id, task, job.nReduce)))
  {
    hide Share, FilesFor;
    var outs := NamesUpTo(job, id, task, job.nReduce);
    var h := Commit(job, g, id, true, task, outs);
    forall r: nat | r < job.nReduce ensures ReduceTask(job, h, r).files == FilesFor(job, h.accepted, r) {
      FilesSnoc(job, g.accepted, (id, task), r);
      assert ReduceTask(job, g, r).files == FilesFor(job, g.accepted, r);
      assert FilesFor(job, g.accepted, r) + [] == FilesFor(job, g.accepted, r);
    }
  }

  lemma CommitMapAccepted(job: Job, g: Shared, h: Shared, id: int, task: nat)
    requires job.nReduce > 0 && AcceptedOk(job, g) && task < Maps(job) && 0 <= id < g.workers
    requires SharesHeld(job, g, id, task, job.nReduce) && !Committed(g, task)
    requires h.files == g.files && h.workers == g.workers && h.accepted == g.accepted + [(id, task)]
    requires forall k: nat :: Committed(h, k) <==> Committed(g, k) || k == task
    ensures AcceptedOk(job, h)
  {
    hide Committed, Share;
    var n := |g.accepted|;
    assert !IsAccepted(g, task);
    forall t: nat | t < Maps(job) ensures Committed(h, t) <==> IsAccepted(h, t) {
      assert h.accepted[n].1 == task;
      if IsAccepted(g, t) {
        var k :| 0 <= k < n && g.accepted[k].1 == t;
        assert h.accepted[k].1 == t;
      }
    }
    forall k, r: nat | 0 <= k < |h.accepted| && r < job.nReduce
      ensures HoldsShare(job, h, h.accepted[k].0, h.accepted[k].1, r) {
      if k < n {
        assert HoldsShare(job, g, g.accepted[k].0, g.accepted[k].1, r);
      } else {
        assert HoldsShare(job, g, id, task, r);
      }
    }
  }

  /** A map task's report adds its files to the reduce tasks' lists. */
  lemma CommitMapKeeps(job: Job, g: Shared, id: int, task: nat, outs: map<nat, FileName>)
    requires job.nReduce > 0 && GlobalOk(job, g) && ReportOk(job, g, id, true, task, outs) && 0 <= id < g.workers
    requires task in g.locked
    ensures var h := Commit(job, g, id, true, task, outs); GlobalOk(job, h) && Stable(job, g, h, id, task)
  {
    hide Committed, FilesFor, Share, GoodLines, TasksOk, ShareOfAll, HoldsShare, NamesUpTo, AcceptedOk, ListsOk;
    var h := Commit(job, g, id, true, task, outs);
    GlobalFacts(job, g);
    GlobalTasks(job, g);
    CommitKeepsTasks(job, g, h, task);
    CommitMapLists(job, g, id, task);
    CommitMapAccepted(job, g, h, id, task);
    assert !MapsDone(job, g);
    assert forall v: int, t: nat | v != id && NotListed(g, v, t) :: NotListed(h, v, t);
    forall r: nat | r < job.nReduce ensures ReduceTask(job, h, r).done == ReduceTask(job, g, r).done {}
    assert forall r: nat :: OutputOk(job, h, r) == OutputOk(job, g, r) && Reduced(job, h, r) == Reduced(job, g, r);
  }

  lemma CommitStepKeeps(job: Job, s: State, p: nat, h: Shared, q: Proc)
    requires job.nReduce > 0 && GlobalOk(job, s.g) && p in s.procs && ProcOk(job, s.g, s.procs[p])
    requires s.procs[p].Committing? && Acts(job, s, p, h, q)
    ensures Good(job, s.g, h, s.procs[p].id, Index(job, s.procs[p].isMap, s.procs[p].task), q) &&
        q.id == s.procs[p].id && !q.Committing?
  {
    hide TasksOk, AcceptedOk, ListsOk, OutputsOk, MapsDone, Stable, GlobalOk, ReportOk;
    var Committing(id, isMap, task, outs) := s.procs[p];
    if isMap {
      CommitMapKeeps(job, s.g, id, task, outs);
    } else {
      CommitReduceKeeps(job, s.g, id, task, outs);
    }
  }

  /** Asking for a task: an id, a phase, then one task after the other. */
  lemma AskStepKeeps(job: Job, s: State, p: nat, h: Shared, q: Proc)
    requires job.nReduce > 0 && GlobalOk(job, s.g) && p in s.procs && ProcOk(job, s.g, s.procs[p])
    requires (s.procs[p].Asking? || s.procs[p].Probing?) && Acts(job, s, p, h, q)
    ensures Good(job, s.g, h, s.procs[p].id, |s.g.tasks|, q) && !q.Committing?
    ensures q.id == s.procs[p].id || (q.id == s.g.workers && s.procs[p].id == -1)
  {
    hide Committed, CommittedSet, TasksOk, AcceptedOk, ListsOk, OutputsOk, MapsDone, Stable, GlobalOk, Issue, ReportOk;
    var g := s.g;
    GlobalFacts(job, g);
    SameStable(job, g, s.procs[p].id, |g.tasks|);
    match s.procs[p]
    case Asking(id) =>
      if id < 0 {
        RegisterKeeps(job, g);
      } else if g.workDone >= Maps(job) {
        CountedAllMaps(job, g);
      }
    case Probing(id, mapPhase, i) =>
      if i < PhaseEnd(job, mapPhase) && i < |g.tasks| && !g.tasks[i].done && (h, q) == Issue(job, g, id, i) {
        IssueKeeps(job, g, id, i);
        IssueId(job, g, id, i);
      }
  }

  lemma IssueId(job: Job, g: Shared, id: int, i: nat)
    requires i < |g.tasks|
    ensures Issue(job, g, id, i).1.id == id && !Issue(job, g, id, i).1.Committing?
  {
  }
}
