/** The coordinator object. Each handler's body is one or more of the critical sections of `MapReduceJob`. */
module CoordinatorObject {
  import opened MapReduceJob

  /** `lastIssued` is the time of the last issue, in seconds. */
  datatype TaskData =
      TaskData(taskId: int, taskType: int, files: seq<FileName>, done: bool, lastIssued: int, issued: bool)

  datatype AskTaskReply = AskTaskReply(id: int, taskType: int, taskId: int, files: seq<FileName>, nReduce: int)

  /** A handler's outcome; Panic is an index out of range in the source. */
  datatype Outcome = Success | TaskNotFound | Panic

  const REISSUE_AFTER := 10

  predicate MayIssue(task: TaskData, now: int) {
    !task.done && (!task.issued || now - task.lastIssued > REISSUE_AFTER)
  }

  function AsTasks(tasks: seq<TaskData>): seq<Task> {
    seq(|tasks|, i requires 0 <= i < |tasks| => Task(tasks[i].files, tasks[i].done, tasks[i].issued))
  }

  /** Task k once the files of the reduce tasks before j were appended. */
  ghost function Appended(before: seq<TaskData>, nMap: nat, outs: map<nat, FileName>, j: int, k: int): TaskData
    requires 0 <= k < |before|
  {
    if nMap <= k < j && k - nMap in outs then before[k].(files := before[k].files + [outs[k - nMap]]) else before[k]
  }

  lemma Marked(tasks: seq<TaskData>, a: nat)
    requires a < |tasks|
    ensures AsTasks(tasks[a := tasks[a].(done := true)]) == AsTasks(tasks)[a := AsTasks(tasks)[a].(done := true)]
  {
  }

  lemma WasIssued(job: Job, tasks: seq<TaskData>, i: nat, now: int, g: Shared, id: int)
    requires i < |tasks| && g.tasks == AsTasks(tasks)
    ensures AsTasks(tasks[i := tasks[i].(lastIssued := now, issued := true)]) == Issue(job, g, id, i).0.tasks
  {
  }

  lemma AllAppended(job: Job, before: seq<TaskData>, outs: map<nat, FileName>, tasks: seq<TaskData>)
    requires |tasks| == |before| == Maps(job) + job.nReduce
    requires forall k | 0 <= k < |tasks| :: tasks[k] == Appended(before, Maps(job), outs, Maps(job) + job.nReduce, k)
    ensures AsTasks(tasks) == AppendFiles(job, AsTasks(before), map r: nat | r in outs && r < job.nReduce :: outs[r])
  {
  }

  class Coordinator {
    const job: Job
    var nReduce: nat
    var nMap: nat
    var workDone: nat
    var tasks: seq<TaskData>
    var workers: nat

    /** Tasks are numbered in order, the map tasks first, each of these with its input file. */
    ghost predicate Valid()
      reads this
    {
      && nMap == Maps(job) && nReduce == job.nReduce && |tasks| == nMap + nReduce
      && (forall i | 0 <= i < |tasks| :: tasks[i].taskId == i && tasks[i].taskType == if i < nMap then 1 else 2)
      && forall i | 0 <= i < nMap :: tasks[i].files == [Input(i)]
    }

    /** The tasks as the transition system sees them. */
    ghost function Tasks(): (r: seq<Task>)
      reads this
    {
      AsTasks(tasks)
    }

    constructor (job: Job)
      ensures Valid() && this.job == job && workDone == 0 && workers == 0 && Tasks() == NewTasks(job)
      ensures forall i | 0 <= i < |tasks| ::
          !tasks[i].done && !tasks[i].issued && tasks[i].files == if i < nMap then [Input(i)] else []
    {
      this.job := job;
      nReduce, nMap := job.nReduce, |job.inputs|;
      workDone, workers, tasks := 0, 0, [];
      new;
      for i := 0 to nMap
        invariant nMap == |job.inputs| && nReduce == job.nReduce && |tasks| == i && workDone == 0 && workers == 0
        invariant forall k | 0 <= k < i :: tasks[k] == TaskData(k, 1, [Input(k)], false, 0, false)
      {
        tasks := tasks + [TaskData(i, 1, [Input(i)], false, 0, false)];
      }
      for i := 0 to nReduce
        invariant nMap == |job.inputs| && nReduce == job.nReduce && |tasks| == nMap + i && workDone == 0 && workers == 0
        invariant forall k | 0 <= k < nMap + i ::
          tasks[k] ==
            if k < nMap then TaskData(k, 1, [Input(k)], false, 0, false)
            else TaskData(k, 2, [], false, 0, false)
      {
        tasks := tasks + [TaskData(i + nMap, 2, [], false, 0, false)];
      }
    }

    /** Where the search for a task starts and ends. */
    function Phase(): (int, int)
      reads this
    {
      if workDone < nMap then (0, nMap) else (nMap, nMap + nReduce)
    }

    /**
     * Hands out the first task of the phase that may be issued, and only that one. Map tasks are handed out until all
     * of them are counted, reduce tasks from then on; a task that was issued in the last ten seconds is not.
     */
    method AskTask(argId: int, now: int) returns (reply: AskTaskReply)
      requires Valid() && nReduce > 0
      modifies this
      ensures Valid() && nMap == old(nMap) && nReduce == old(nReduce) && workDone == old(workDone)
      ensures argId == -1 ==> reply.id == old(workers) && workers == old(workers) + 1
      ensures argId != -1 ==> reply.id == argId && workers == old(workers)
      ensures reply.taskId == -1 ==> tasks == old(tasks) && reply == AskTaskReply(reply.id, 0, -1, [], 0)
      ensures
        var (first, past) := if workDone < nMap then (0, nMap) else (nMap, nMap + nReduce);
        reply.taskId == -1 <==>
          forall k | first <= k < past ::
            old(tasks)[k].done || (old(tasks)[k].issued && now <= old(tasks)[k].lastIssued + 10)
      ensures reply.taskId != -1 ==>
        var first := if workDone < nMap then 0 else nMap;
        var i := if workDone < nMap then reply.taskId else reply.taskId + nMap;
        && reply.taskType == (if workDone < nMap then 1 else 2)
        && 0 <= reply.taskId < (if workDone < nMap then nMap else nReduce)
        && !old(tasks)[i].done && (old(tasks)[i].issued ==> now > old(tasks)[i].lastIssued + 10)
        && (forall k | first <= k < i ::
              old(tasks)[k].done || (old(tasks)[k].issued && now <= old(tasks)[k].lastIssued + 10))
        && reply.files == old(tasks)[i].files && reply.nReduce == nReduce
        && (reply.taskType == 1 ==> reply.files == [Input(reply.taskId)])
        && tasks == old(tasks)[i := old(tasks)[i].(lastIssued := now, issued := true)]
        && Tasks() == Issue(job, Shared(old(Tasks()), workDone, workers, {}, map[], []), reply.id, i).0.tasks
    {
      hide AsTasks, Issue;
      var replyId := argId;
      if argId == -1 {
        replyId := workers;
        workers := workers + 1;
      }
      var (start, end) := Phase();
      reply := AskTaskReply(replyId, 0, -1, [], 0);
      var i := start;
      while i < end
        invariant start <= i <= end && reply == AskTaskReply(replyId, 0, -1, [], 0) && Valid()
        invariant tasks == old(tasks) && nMap == old(nMap) && nReduce == old(nReduce) && workDone == old(workDone)
        invariant workers == old(workers) + if argId == -1 then 1 else 0
        invariant forall k | start <= k < i :: !MayIssue(tasks[k], now)
      {
        if !tasks[i].done && (!tasks[i].issued || now - tasks[i].lastIssued > REISSUE_AFTER) {
          var taskId := if start == 0 then tasks[i].taskId else tasks[i].taskId - nMap;
          reply := AskTaskReply(replyId, tasks[i].taskType, taskId, tasks[i].files, nReduce);
          WasIssued(job, tasks, i, now, Shared(Tasks(), workDone, workers, {}, map[], []), replyId);
          tasks := tasks[i := tasks[i].(lastIssued := now, issued := true)];
          return;
        }
        i := i + 1;
      }
    }

    /**
     * Records a report. A task that was already done is left alone. The bound check lets the number after the last
     * task through, and no check stops negative ones: the handler fails exactly on these.
     */
    method TaskDone(taskId: int, taskType: int, outs: map<nat, FileName>) returns (outcome: Outcome)
      requires Valid()
      modifies this
      ensures Valid() && nMap == old(nMap) && nReduce == old(nReduce) && workers == old(workers)
      ensures var a := if taskType == 2 then taskId + nMap else taskId;
        && (outcome == TaskNotFound <==> a > nMap + nReduce)
        && (outcome == Panic <==> a < 0 || a == nMap + nReduce)
        && (outcome != Success || old(tasks)[a].done ==> tasks == old(tasks) && workDone == old(workDone))
        && (outcome == Success && !old(tasks)[a].done ==>
              && workDone == old(workDone) + 1
              && var marked := old(Tasks())[a := old(Tasks())[a].(done := true)];
              && var given := map r: nat | r in outs && r < nReduce :: outs[r];
              && Tasks() == if taskType == 1 then AppendFiles(job, marked, given) else marked)
    {
      hide AsTasks, AppendFiles;
      var actualTaskId := taskId;
      if taskType == 2 {
        actualTaskId := actualTaskId + nMap;
      }
      if actualTaskId > nMap + nReduce {
        return TaskNotFound;
      }
      if actualTaskId < 0 || actualTaskId >= |tasks| {
        return Panic;
      }
      if !tasks[actualTaskId].done {
        Marked(tasks, actualTaskId);
        tasks := tasks[actualTaskId := tasks[actualTaskId].(done := true)];
        workDone := workDone + 1;
        if taskType == 1 {
          ghost var before := tasks;
          for j := nMap to nMap + nReduce
            invariant nMap == old(nMap) && nReduce == old(nReduce) && workers == old(workers) &&
                workDone == old(workDone) + 1
            invariant |tasks| == |before| == nMap + nReduce
            invariant forall k | 0 <= k < |tasks| :: tasks[k] == Appended(before, nMap, outs, j, k)
          {
            if j - nMap in outs {
              tasks := tasks[j := tasks[j].(files := tasks[j].files + [outs[j - nMap]])];
            }
          }
          AllAppended(job, before, outs, tasks);
        }
      }
      outcome := Success;
    }

    /** Whether every task is done. */
    method Done() returns (ret: bool)
      requires Valid()
      ensures ret <==> forall i | 0 <= i < |Tasks()| :: Tasks()[i].done
    {
      ret := true;
      for i := 0 to |tasks|
        invariant ret && forall k | 0 <= k < i :: Tasks()[k].done
      {
        if !tasks[i].done {
          ret := false;
          assert !Tasks()[i].done;
          break;
        }
      }
    }
  }
}
