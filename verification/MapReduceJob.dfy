/**
 * The distributed job as a transition system: the coordinator's critical sections, the workers' file
 * operations, and crashes, in every interleaving. A step is one critical section, or one file operation.
 */
module MapReduceJob {
  import opened Grouping
  import opened Buckets

  /** Input files are name and content. */
  datatype Job = Job(app: App, inputs: seq<(string, string)>, nReduce: nat)

  ghost predicate WellFormed(job: Job) {
    job.nReduce > 0 && OrderBlind(job.app)
  }

  function Maps(job: Job): nat { |job.inputs| }

  /** What map task t emits. */
  function Emitted(job: Job, t: nat): seq<KeyValue>
    requires t < Maps(job)
  {
    job.app.mapf(job.inputs[t].0, job.inputs[t].1)
  }

  /** What the first k map tasks emit, one after the other. */
  function EmittedUpTo(job: Job, k: nat): seq<KeyValue>
    requires k <= Maps(job)
  {
    if k == 0 then [] else EmittedUpTo(job, k - 1) + Emitted(job, k - 1)
  }

  /** What map task t emits for reduce task r. */
  function Share(job: Job, t: nat, r: nat): seq<KeyValue>
    requires t < Maps(job) && job.nReduce > 0
  {
    Bucket(job.app, Emitted(job, t), job.nReduce, r)
  }

  /** All pairs that reduce task r must reduce. */
  function ShareOfAll(job: Job, r: nat): seq<KeyValue>
    requires job.nReduce > 0
  {
    Bucket(job.app, EmittedUpTo(job, Maps(job)), job.nReduce, r)
  }

  /** Files are named after the worker, the task and the reduce task they are for. */
  datatype FileName = Input(task: nat) | Intermediate(worker: int, task: nat, bucket: nat)
      | Temp(worker: int, task: nat) | Output(task: nat)

  /** A file that was created but not yet written completely is Unfinished. */
  datatype Content = Unfinished | Pairs(pairs: seq<KeyValue>) | Lines(lines: seq<Line>)

  datatype Task = Task(files: seq<FileName>, done: bool, issued: bool)

  /**
   * What workers share. Tasks 0 .. nMap are the map tasks, the rest the reduce tasks; `locked` are the tasks whose
   * lock a report holds. `accepted` records which worker's report each map task was completed by, in order.
   */
  datatype Shared = Shared(tasks: seq<Task>, workDone: nat, workers: nat, locked: set<nat>,
                           files: map<FileName, Content>, accepted: seq<(int, nat)>)

  /** A worker process, or the coordinator's handler working for it. The worker id is -1 until it is given one. */
  datatype Proc =
    | Asking(id: int)
    | Probing(id: int, mapPhase: bool, i: nat)
    | Mapping(id: int, task: nat, bucket: nat, created: bool, outs: map<nat, FileName>)
    | Reading(id: int, task: nat, inputs: seq<FileName>, k: nat, content: seq<KeyValue>)
    | Writing(id: int, task: nat, lines: seq<Line>, written: bool)
    | Reporting(id: int, isMap: bool, task: nat, outs: map<nat, FileName>)
    | Committing(id: int, isMap: bool, task: nat, outs: map<nat, FileName>)

  datatype State = State(g: Shared, procs: map<nat, Proc>)

  function Index(job: Job, isMap: bool, task: nat): nat {
    if isMap then task else task + Maps(job)
  }

  function PhaseEnd(job: Job, mapPhase: bool): nat {
    if mapPhase then Maps(job) else Maps(job) + job.nReduce
  }

  // ----- the coordinator

  function NewTasks(job: Job): seq<Task> {
    seq(Maps(job) + job.nReduce, i requires 0 <= i => Task(if i < Maps(job) then [Input(i)] else [], false, false))
  }

  function Start(job: Job): State {
    State(Shared(NewTasks(job), 0, 0, {}, map[], []), map[])
  }

  /** The task at `i` may be handed out: it is not done, and was not issued or not recently. */
  function Issue(job: Job, g: Shared, id: int, i: nat): (Shared, Proc)
    requires i < |g.tasks|
  {
    (g.(tasks := g.tasks[i := g.tasks[i].(issued := true)]),
     if i < Maps(job) then Mapping(id, i, 0, false, map[]) else Reading(id, i - Maps(job), g.tasks[i].files, 0, []))
  }

  function Mark(g: Shared, a: nat): Shared
    requires a < |g.tasks|
  {
    g.(tasks := g.tasks[a := g.tasks[a].(done := true)], locked := g.locked + {a})
  }

  /** The reduce tasks' lists with the reported files appended. */
  function AppendFiles(job: Job, tasks: seq<Task>, outs: map<nat, FileName>): seq<Task> {
    seq(|tasks|, i requires 0 <= i < |tasks| =>
      if Maps(job) <= i && i - Maps(job) in outs then tasks[i].(files := tasks[i].files + [outs[i - Maps(job)]])
      else tasks[i])
  }

  function Commit(job: Job, g: Shared, id: int, isMap: bool, task: nat, outs: map<nat, FileName>): Shared {
    var h := g.(workDone := g.workDone + 1, locked := g.locked - {Index(job, isMap, task)});
    if isMap then h.(tasks := AppendFiles(job, g.tasks, outs), accepted := g.accepted + [(id, task)]) else h
  }

  // ----- steps, by the process that takes them

  ghost predicate Acts(job: Job, s: State, p: nat, g: Shared, q: Proc)
    requires p in s.procs && job.nReduce > 0
  {
    match s.procs[p]
    case Asking(id) =>
      if id < 0 then q == Asking(s.g.workers) && g == s.g.(workers := s.g.workers + 1)
      else g == s.g && q == (if s.g.workDone < Maps(job) then Probing(id, true, 0) else Probing(id, false, Maps(job)))
    case Probing(id, mapPhase, i) =>
      if i >= PhaseEnd(job, mapPhase) || i >= |s.g.tasks| then q == Asking(id) && g == s.g
      else
        && i !in s.g.locked
        && var task := s.g.tasks[i];
        || ((task.done || task.issued) && g == s.g && q == Probing(id, mapPhase, i + 1))
        || (!task.done && (g, q) == Issue(job, s.g, id, i))
    case Mapping(id, t, b, created, outs) =>
      && t < Maps(job)
      && if b >= job.nReduce then g == s.g && q == Reporting(id, true, t, outs)
         else if created then
           g == s.g.(files := s.g.files[Intermediate(id, t, b) := Pairs(Share(job, t, b))]) &&
               q == Mapping(id, t, b + 1, false, outs)
         else if Share(job, t, b) == [] then g == s.g && q == Mapping(id, t, b + 1, false, outs)
         else
           && g == s.g.(files := s.g.files[Intermediate(id, t, b) := Unfinished])
           && q == Mapping(id, t, b, true, outs[b := Intermediate(id, t, b)])
    case Reading(id, r, inputs, k, content) =>
      if inputs == [] then g == s.g && q == Reporting(id, false, r, map[])
      else if k < |inputs| then
        && inputs[k] in s.g.files && s.g.files[inputs[k]].Pairs?
        && g == s.g && q == Reading(id, r, inputs, k + 1, content + s.g.files[inputs[k]].pairs)
      else
        && g == s.g.(files := s.g.files[Temp(id, r) := Unfinished])
        && q.Writing? && q == Writing(id, r, q.lines, false) && LinesOf(job.app, content, q.lines)
    case Writing(id, r, lines, written) =>
      if !written then g == s.g.(files := s.g.files[Temp(id, r) := Lines(lines)]) && q == Writing(id, r, lines, true)
      else
        && Temp(id, r) in s.g.files
        && g == s.g.(files := (s.g.files - {Temp(id, r)})[Output(r) := s.g.files[Temp(id, r)]])
        && q == Reporting(id, false, r, map[0 := Output(r)])
    case Reporting(id, isMap, task, outs) =>
      var a := Index(job, isMap, task);
      && a < |s.g.tasks| && a !in s.g.locked
      && if s.g.tasks[a].done then g == s.g && q == Asking(id)
         else g == Mark(s.g, a) && q == Committing(id, isMap, task, outs)
    case Committing(id, isMap, task, outs) =>
      g == Commit(job, s.g, id, isMap, task, outs) && q == Asking(id)
  }

  /** Sorting the pairs, whichever way equal keys end up, and reducing them gives these lines. */
  ghost predicate LinesOf(app: App, content: seq<KeyValue>, lines: seq<Line>) {
    exists sorted :: SortedByKey(sorted) && multiset(sorted) == multiset(content) && lines == Groups(app, sorted)
  }

  /** A worker can crash anywhere except inside the coordinator. */
  predicate MayCrash(q: Proc) {
    !q.Probing? && !q.Committing?
  }

  ghost predicate Next(job: Job, s: State, t: State)
    requires job.nReduce > 0
  {
    exists p: nat ::
      || (p !in s.procs && t == s.(procs := s.procs[p := Asking(-1)]))
      || (p in s.procs && MayCrash(s.procs[p]) && t == s.(procs := s.procs - {p}))
      || (p in s.procs && Moves(job, s, p, t))
  }

  ghost predicate Moves(job: Job, s: State, p: nat, t: State)
    requires p in s.procs && job.nReduce > 0
  {
    p in t.procs && Acts(job, s, p, t.g, t.procs[p]) && t.procs == s.procs[p := t.procs[p]]
  }

  ghost predicate Run(job: Job, run: seq<State>)
    requires job.nReduce > 0
  {
    && run != [] && run[0] == Start(job)
    && forall i | 0 <= i < |run| - 1 :: Next(job, run[i], run[i + 1])
  }

  /** What `Done` has seen when it answers true: every task done, and its lock free. */
  predicate Done(s: State) {
    forall i | 0 <= i < |s.g.tasks| :: s.g.tasks[i].done && i !in s.g.locked
  }

  /** The lines over all output files. */
  ghost function OutputLines(job: Job, g: Shared): (r: seq<multiset<Line>>)
    ensures |r| == job.nReduce
  {
    seq(job.nReduce, r requires 0 <= r =>
      if Output(r) in g.files && g.files[Output(r)].Lines? then multiset(g.files[Output(r)].lines) else multiset{})
  }
}
