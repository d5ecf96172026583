/** The task scheduler of src/scheduler/scheduler.c: scores, the choice of a node, and the task array. */
module Schedulers {
  import opened Searches

  const MAX_TASKS := 1000

  datatype NodeStatus = NodeIdle | NodeBusy | NodeOffline | NodeFailed

  datatype Node = Node(id: int, status: NodeStatus, cpuLoad: real, memoryUsage: real, reputation: real,
                       lastHeartbeat: int)

  datatype TaskStatus = TaskPending | TaskRunning | TaskCompleted | TaskFailed

  datatype Task = Task(id: int, assignedNode: int, status: TaskStatus, created: int, completed: int)

  predicate Live(n: Node) {
    !n.status.NodeFailed? && !n.status.NodeOffline?
  }

  function Score(n: Node): real {
    if n.status.NodeFailed? || n.status.NodeOffline? then -1.0
    else n.reputation * 0.4 + (1.0 - n.cpuLoad) * 0.3 + (1.0 - n.memoryUsage) * 0.3
  }

  /** Only such a node is ever chosen; with loads at most 1 and reputation at least 0 it means live. */
  predicate Eligible(n: Node) {
    Score(n) > -1.0
  }

  lemma EligibleMeansLive(n: Node)
    ensures Eligible(n) ==> Live(n)
    ensures n.cpuLoad <= 1.0 && n.memoryUsage <= 1.0 && n.reputation >= 0.0 ==> (Eligible(n) <==> Live(n))
  {
  }

  predicate Between(x: real) {
    0.0 <= x <= 1.0
  }

  /**
   Of two live nodes reputation weighs four, idle processor and free memory three each; metrics in range score in range.
   */
  lemma ScoreWeighs(n: Node, m: Node)
    requires Live(n) && Live(m)
    ensures Score(n) >= Score(m) <==>
            4.0 * (n.reputation - m.reputation) >= 3.0 * (n.cpuLoad - m.cpuLoad) + 3.0 * (n.memoryUsage - m.memoryUsage)
    ensures 10.0 * (Score(n) - Score(m)) ==
            4.0 * (n.reputation - m.reputation) - 3.0 * (n.cpuLoad - m.cpuLoad) - 3.0 * (n.memoryUsage - m.memoryUsage)
    ensures n.reputation == 1.0 && n.cpuLoad == 0.0 && n.memoryUsage == 0.0 ==> Score(n) == 1.0
    ensures Between(n.reputation) && Between(n.cpuLoad) && Between(n.memoryUsage) ==> Between(Score(n))
  {
  }

  /** The first node of highest score, or -1 when none is eligible. */
  ghost predicate IsBest(nodes: seq<Node>, r: int) {
    if r == -1 then forall j | 0 <= j < |nodes| :: !Eligible(nodes[j])
    else
      && 0 <= r < |nodes| && Eligible(nodes[r])
      && (forall j | 0 <= j < |nodes| :: Score(nodes[j]) <= Score(nodes[r]))
      && (forall j | 0 <= j < r :: Score(nodes[j]) < Score(nodes[r]))
  }

  function Best(nodes: seq<Node>): (r: int)
    ensures IsBest(nodes, r)
  {
    if nodes == [] then -1
    else
      var n := |nodes| - 1;
      var r := Best(nodes[..n]);
      assert forall j | 0 <= j < n :: nodes[..n][j] == nodes[j];
      if Score(nodes[n]) > (if r == -1 then -1.0 else Score(nodes[r])) then n else r
  }

  lemma BestIsUnique(nodes: seq<Node>, r: int, r': int)
    requires IsBest(nodes, r) && IsBest(nodes, r')
    ensures r == r'
  {
  }

  predicate Waiting(t: Task) {
    t.status.TaskFailed? || t.status.TaskPending?
  }

  function Place(t: Task, n: Node): Task {
    t.(assignedNode := n.id, status := TaskRunning)
  }

  function Rescheduled(tasks: seq<Task>, nodes: seq<Node>): (r: seq<Task>)
    ensures |r| == |tasks|
    ensures forall i | 0 <= i < |tasks| ::
              r[i] == if Waiting(tasks[i]) && Best(nodes) != -1 then Place(tasks[i], nodes[Best(nodes)]) else tasks[i]
  {
    seq(|tasks|, i requires 0 <= i < |tasks| =>
      if Waiting(tasks[i]) && Best(nodes) != -1 then Place(tasks[i], nodes[Best(nodes)]) else tasks[i])
  }

  const taskId: Task -> int := (t: Task) => t.id

  /** The first task with this id, or -1. */
  function FirstWithId(tasks: seq<Task>, id: int): (r: int)
    ensures -1 <= r < |tasks|
    ensures r == -1 ==> forall i | 0 <= i < |tasks| :: tasks[i].id != id
    ensures r != -1 ==> tasks[r].id == id && forall i | 0 <= i < r :: tasks[i].id != id
  {
    IndexOf(tasks, taskId, id)
  }

  /** The first task with this id takes the new status. */
  function Updated(tasks: seq<Task>, id: int, status: TaskStatus, now: int): seq<Task> {
    var k := FirstWithId(tasks, id);
    if k == -1 then tasks else tasks[k := Finish(tasks[k], status, now)]
  }

  function Finish(t: Task, status: TaskStatus, now: int): Task {
    if status.TaskCompleted? || status.TaskFailed? then t.(status := status, completed := now) else t.(status := status)
  }

  /** What schedule_task returns, the task as it leaves it, and what it appends. */
  datatype Scheduling = Scheduling(result: int, task: Task, appended: seq<Task>, nextTaskId: int)

  function Schedule(task: Task, nodes: seq<Node>, taskCount: nat, nextTaskId: int, now: int): Scheduling {
    if taskCount >= MAX_TASKS then Scheduling(-1, task, [], nextTaskId)
    else
      var t := if task.id == 0 then task.(id := nextTaskId) else task;
      var next := if task.id == 0 then nextTaskId + 1 else nextTaskId;
      if Best(nodes) == -1 then Scheduling(-1, t, [], next)
      else
        var n := nodes[Best(nodes)];
        var placed := Place(t, n).(created := now);
        Scheduling(n.id, placed, [placed], next)
  }

  class Scheduler {
    const tasks: array<Task>
    var taskCount: nat
    var nextTaskId: int

    ghost predicate Valid()
      reads this
    {
      tasks.Length == MAX_TASKS && taskCount <= MAX_TASKS
    }

    ghost function View(): seq<Task>
      requires Valid()
      reads this, tasks
    {
      tasks[..taskCount]
    }

    constructor ()
      ensures Valid() && View() == [] && nextTaskId == 1 && fresh(tasks)
    {
      tasks := new Task[MAX_TASKS](_ => Task(0, 0, TaskPending, 0, 0));
      taskCount, nextTaskId := 0, 1;
    }

    method AssignTaskToNode(nodes: array<Node>) returns (best: int)
      ensures best == Best(nodes[..])
    {
      best := -1;
      var bestScore := -1.0;
      for i := 0 to nodes.Length
        invariant best == Best(nodes[..i]) && bestScore == if best == -1 then -1.0 else Score(nodes[best])
      {
        assert nodes[..i + 1][..i] == nodes[..i];
        var score := Score(nodes[i]);
        if score > bestScore {
          bestScore := score;
          best := i;
        }
      }
      assert nodes[..nodes.Length] == nodes[..];
    }

    method ScheduleTask(task: Task, nodes: array<Node>, now: int) returns (result: int, out: Task)
      requires Valid() && nodes as object != tasks
      modifies this, tasks
      ensures Valid()
      ensures var s := Schedule(task, nodes[..], old(taskCount), old(nextTaskId), now);
              result == s.result && out == s.task && View() == old(View()) + s.appended && nextTaskId == s.nextTaskId
    {
      out := task;
      if taskCount >= MAX_TASKS {
        return -1, out;
      }
      if out.id == 0 {
        out := out.(id := nextTaskId);
        nextTaskId := nextTaskId + 1;
      }
      var best := AssignTaskToNode(nodes);
      if best == -1 {
        return -1, out;
      }
      out := out.(assignedNode := nodes[best].id, status := TaskRunning, created := now);
      tasks[taskCount] := out;
      taskCount := taskCount + 1;
      result := nodes[best].id;
    }

    method UpdateTaskStatus(id: int, status: TaskStatus, now: int)
      requires Valid()
      modifies tasks
      ensures Valid() && View() == Updated(old(View()), id, status, now)
    {
      for i := 0 to taskCount
        invariant View() == old(View())
        invariant forall k | 0 <= k < i :: tasks[k].id != id
      {
        if tasks[i].id == id {
          assert FirstWithId(View(), id) == i by { assert View()[i] == tasks[i]; }
          tasks[i] := Finish(tasks[i], status, now);
          break;
        }
      }
    }

    method RescheduleFailedTasks(nodes: array<Node>)
      requires Valid() && nodes as object != tasks
      modifies tasks
      ensures Valid() && View() == Rescheduled(old(View()), nodes[..])
    {
      ghost var target := Rescheduled(View(), nodes[..]);
      for i := 0 to taskCount
        invariant forall k | 0 <= k < i :: tasks[k] == target[k]
        invariant forall k | i <= k < taskCount :: tasks[k] == old(tasks[k])
        invariant nodes[..] == old(nodes[..])
      {
        if tasks[i].status.TaskFailed? || tasks[i].status.TaskPending? {
          var best := AssignTaskToNode(nodes);
          if best >= 0 {
            tasks[i] := tasks[i].(assignedNode := nodes[best].id, status := TaskRunning);
          }
        }
      }
    }
  }
}
