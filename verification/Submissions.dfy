/**
 What submitting, reporting and rescheduling do to the task array of src/scheduler/scheduler.c, call by call and on
 runs.
 */
module Submissions {
  import opened FaultManagers
  import opened Recovery
  import opened Schedulers

  ghost predicate SomeEligible(nodes: seq<Node>) {
    exists j :: 0 <= j < |nodes| && Eligible(nodes[j])
  }

  /** The task as it is stored: named if it had no id, running on the first node of highest score, created now. */
  function Stored(task: Task, node: Node, nextTaskId: int, now: int): Task {
    Task(if task.id == 0 then nextTaskId else task.id, node.id, TaskRunning, now, task.completed)
  }

  /**
   A submission succeeds exactly if there is room and an eligible node. It then appends the one task, and returns the id
   of its node; otherwise it appends nothing and returns -1. The next id moves on whenever it has been given out.
   */
  lemma {:induction false} SubmitIff(task: Task, nodes: seq<Node>, taskCount: nat, nextTaskId: int, now: int)
    ensures var s := Schedule(task, nodes, taskCount, nextTaskId, now);
            && (s.appended != [] <==> taskCount < 1000 && SomeEligible(nodes))
            && (s.appended != [] ==> exists b ::
                  IsBest(nodes, b) && b != -1 && s.result == nodes[b].id
                  && s.appended == [Stored(task, nodes[b], nextTaskId, now)] && s.task == s.appended[0])
            && (s.appended == [] ==> s.result == -1)
            && s.nextTaskId == nextTaskId + if task.id == 0 && taskCount < 1000 then 1 else 0
  {
    assert IsBest(nodes, Best(nodes));
  }

  /** A report changes the first task with the id: its status, and its completion time if it has ended. */
  lemma {:induction false} ReportIs(tasks: seq<Task>, id: int, status: TaskStatus, now: int)
    ensures |Updated(tasks, id, status, now)| == |tasks|
    ensures forall k | 0 <= k < |tasks| ::
              Updated(tasks, id, status, now)[k] ==
              if tasks[k].id != id || (exists i :: 0 <= i < k && tasks[i].id == id) then tasks[k]
              else if status == TaskCompleted || status == TaskFailed then tasks[k].(status := status, completed := now)
              else tasks[k].(status := status)
  {
    hide FirstWithId;
  }

  /** Rescheduling moves exactly the pending and failed tasks to the first node of highest score, if one is eligible. */
  lemma {:induction false} RescheduleIs(tasks: seq<Task>, nodes: seq<Node>, b: int)
    requires IsBest(nodes, b)
    ensures |Rescheduled(tasks, nodes)| == |tasks|
    ensures forall k | 0 <= k < |tasks| ::
              Rescheduled(tasks, nodes)[k] ==
              if b != -1 && (tasks[k].status == TaskPending || tasks[k].status == TaskFailed)
              then tasks[k].(assignedNode := nodes[b].id, status := TaskRunning)
              else tasks[k]
  {
    BestIsUnique(nodes, b, Best(nodes));
  }

  // ----- runs -----

  ghost predicate Admits(s: System, op: Operation) {
    op.Submit? && |s.grid.tasks| < 1000 && SomeEligible(s.grid.nodes)
  }

  /** How many of the submissions of a run succeed. */
  ghost function Admitted(s: System, ops: seq<Operation>): nat {
    if ops == [] then 0
    else
      var n := |ops| - 1;
      Admitted(s, ops[..n]) + if Admits(ApplyAll(s, ops[..n]), ops[n]) then 1 else 0
  }

  /** No task is lost, moved or renamed, and a task is appended exactly by a submission that succeeds. */
  lemma {:induction false} OperationKeepsPlaces(s: System, op: Operation)
    ensures var t, t' := s.grid.tasks, Apply(s, op).grid.tasks;
            && |t'| == |t| + (if Admits(s, op) then 1 else 0)
            && (forall k | 0 <= k < |t| :: t'[k].id == t[k].id && t'[k].created == t[k].created)
            && (Admits(s, op) ==>
                  t'[|t|].id == (if op.task.id == 0 then s.nextTaskId else op.task.id) && t'[|t|].created == op.now)
  {
    hide Sweep, Recover, Schedule, Updated;
    var g := s.grid;
    match op {
      case Submit(task, now) => SubmitIff(task, g.nodes, |g.tasks|, s.nextTaskId, now);
      case Report(id, status, now) => ReportIs(g.tasks, id, status, now);
      case Monitor(now) => TasksCarried(g, now, |g.nodes|);
      case Restore(id, now) => RecoverKeepsTasks(g, id, now, 0);
      case Hear(_, _, _, _, _) =>
    }
  }

  /** The array holds the tasks it started with and one for each submission that succeeded. */
  lemma {:induction false} TasksCounted(s: System, ops: seq<Operation>)
    ensures |ApplyAll(s, ops).grid.tasks| == |s.grid.tasks| + Admitted(s, ops)
  {
    hide Apply, Admits;
    if ops != [] {
      var n := |ops| - 1;
      TasksCounted(s, ops[..n]);
      OperationKeepsPlaces(ApplyAll(s, ops[..n]), ops[n]);
    }
  }

  /** A task submitted with success at step i is found at its place ever after. */
  lemma {:induction false} SubmittedStays(s: System, ops: seq<Operation>, i: nat)
    requires i < |ops| && Admits(ApplyAll(s, ops[..i]), ops[i])
    ensures var p, t := |s.grid.tasks| + Admitted(s, ops[..i]), ApplyAll(s, ops).grid.tasks;
            && p < |t| && t[p].created == ops[i].now
            && t[p].id == if ops[i].task.id == 0 then ApplyAll(s, ops[..i]).nextTaskId else ops[i].task.id
  {
    hide Apply, Admits;
    var n := |ops| - 1;
    OperationKeepsPlaces(ApplyAll(s, ops[..n]), ops[n]);
    if i == n {
      TasksCounted(s, ops[..i]);
    } else {
      assert ops[..n][..i] == ops[..i];
      SubmittedStays(s, ops[..n], i);
    }
  }
}
