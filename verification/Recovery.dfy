/** What a monitor sweep guarantees about tasks and nodes, also when replacements fail later in the same sweep. */
module Recovery {
  import opened FaultManagers
  import opened Schedulers
  import opened Tally

  ghost predicate OnLiveNode(t: Task, nodes: seq<Node>) {
    exists j :: 0 <= j < |nodes| && nodes[j].id == t.assignedNode && Live(nodes[j])
  }

  /** Every running task is on a node that is neither failed nor offline. */
  ghost predicate Safe(tasks: seq<Task>, nodes: seq<Node>) {
    forall i | 0 <= i < |tasks| && tasks[i].status.TaskRunning? :: OnLiveNode(tasks[i], nodes)
  }

  /** What the sweep leaves of one task: its identity and times, and everything if it is completed. */
  predicate Carries(t: Task, t': Task) {
    && t'.id == t.id && t'.created == t.created && t'.completed == t.completed
    && (t.status.TaskCompleted? ==> t' == t)
    && (t'.status.TaskCompleted? ==> t.status.TaskCompleted?)
  }

  function Swept(n: Node, now: int): Node {
    if TimesOut(n, now) then Penalised(n.(status := NodeFailed)) else n
  }

  lemma {:induction false} RescheduleKeepsSafe(tasks: seq<Task>, nodes: seq<Node>)
    requires Safe(tasks, nodes)
    ensures Safe(Rescheduled(tasks, nodes), nodes)
  {
    var r := Rescheduled(tasks, nodes);
    forall i | 0 <= i < |r| && r[i].status.TaskRunning? ensures OnLiveNode(r[i], nodes) {
      if Waiting(tasks[i]) {
        var n := nodes[Best(nodes)];
        EligibleMeansLive(n);
        assert n.id == r[i].assignedNode && Live(n);
      }
    }
  }

  lemma {:induction false} FailKeepsSafe(g: Grid, i: nat)
    requires i < |g.nodes| && Safe(g.tasks, g.nodes)
    ensures Safe(Fail(g, i).tasks, Fail(g, i).nodes)
  {
    var failed := g.nodes[i].(status := NodeFailed);
    var nodes, tasks := g.nodes[i := failed], Orphaned(g.tasks, failed.id);
    forall k | 0 <= k < |tasks| && tasks[k].status.TaskRunning? ensures OnLiveNode(tasks[k], nodes) {
      var j :| 0 <= j < |nodes| && g.nodes[j].id == g.tasks[k].assignedNode && Live(g.nodes[j]);
      assert nodes[j] == g.nodes[j];
    }
    RescheduleKeepsSafe(tasks, nodes);
    var r := Fail(g, i);
    forall k | 0 <= k < |r.tasks| && r.tasks[k].status.TaskRunning? ensures OnLiveNode(r.tasks[k], r.nodes) {
      var j :| 0 <= j < |nodes| && nodes[j].id == r.tasks[k].assignedNode && Live(nodes[j]);
      assert r.nodes[j].id == nodes[j].id && Live(r.nodes[j]);
    }
  }

  /** The nodes after a sweep do not depend on the tasks. */
  lemma {:induction false} SweptNodes(g: Grid, now: int, k: nat)
    requires k <= |g.nodes|
    ensures forall j | 0 <= j < |g.nodes| ::
              Sweep(g, now, k).nodes[j] == if j < k then Swept(g.nodes[j], now) else g.nodes[j]
  {
    if k > 0 {
      SweptNodes(g, now, k - 1);
    }
  }

  lemma {:induction false} SweepKeepsSafe(g: Grid, now: int, k: nat)
    requires k <= |g.nodes| && Safe(g.tasks, g.nodes)
    ensures Safe(Sweep(g, now, k).tasks, Sweep(g, now, k).nodes)
  {
    hide Safe, Fail;
    if k > 0 {
      SweepKeepsSafe(g, now, k - 1);
      if TimesOut(Sweep(g, now, k - 1).nodes[k - 1], now) {
        FailKeepsSafe(Sweep(g, now, k - 1), k - 1);
      }
    }
  }

  /** After the sweep every running task is on a live node heard from within the timeout, whatever failed on the way. */
  lemma {:induction false} RunningOnFreshNodes(g: Grid, now: int)
    requires Safe(g.tasks, g.nodes)
    ensures var r := Sweep(g, now, |g.nodes|);
            forall i | 0 <= i < |r.tasks| && r.tasks[i].status.TaskRunning? ::
              exists j :: 0 <= j < |r.nodes| && r.nodes[j].id == r.tasks[i].assignedNode
                       && Live(r.nodes[j]) && !Stale(r.nodes[j], now)
  {
    hide Sweep;
    var r := Sweep(g, now, |g.nodes|);
    SweepKeepsSafe(g, now, |g.nodes|);
    SweptNodes(g, now, |g.nodes|);
    forall i | 0 <= i < |r.tasks| && r.tasks[i].status.TaskRunning?
      ensures exists j :: 0 <= j < |r.nodes| && r.nodes[j].id == r.tasks[i].assignedNode
                       && Live(r.nodes[j]) && !Stale(r.nodes[j], now)
    {
      var j :| 0 <= j < |r.nodes| && r.nodes[j].id == r.tasks[i].assignedNode && Live(r.nodes[j]);
      assert r.nodes[j] == Swept(g.nodes[j], now);
    }
  }

  /** No task is lost or changes identity, completed ones are untouched, and none becomes completed. */
  lemma {:induction false} TasksCarried(g: Grid, now: int, k: nat)
    requires k <= |g.nodes|
    ensures forall i | 0 <= i < |g.tasks| :: Carries(g.tasks[i], Sweep(g, now, k).tasks[i])
  {
    if k > 0 {
      TasksCarried(g, now, k - 1);
    }
  }

  /** A running task moves only if a node with its node's id times out. */
  lemma {:induction false} UndisturbedStay(g: Grid, now: int, k: nat, i: nat)
    requires k <= |g.nodes| && i < |g.tasks| && g.tasks[i].status.TaskRunning?
    requires forall j | 0 <= j < k && TimesOut(g.nodes[j], now) :: g.nodes[j].id != g.tasks[i].assignedNode
    ensures Sweep(g, now, k).tasks[i] == g.tasks[i]
  {
    if k > 0 {
      UndisturbedStay(g, now, k - 1, i);
      SweptNodes(g, now, k - 1);
    }
  }

  ghost predicate NoneNeglected(g: Grid) {
    (exists j :: 0 <= j < |g.nodes| && Eligible(g.nodes[j])) ==> forall i | 0 <= i < |g.tasks| :: !Waiting(g.tasks[i])
  }

  /** Once some node has timed out, nothing is left waiting while an eligible node remains. */
  lemma {:induction false} NothingWaits(g: Grid, now: int, k: nat)
    requires k <= |g.nodes| && exists j :: 0 <= j < k && TimesOut(g.nodes[j], now)
    ensures NoneNeglected(Sweep(g, now, k))
  {
    var h, r := Sweep(g, now, k - 1), Sweep(g, now, k);
    SweptNodes(g, now, k - 1);
    if TimesOut(h.nodes[k - 1], now) {
      var nodes := h.nodes[k - 1 := h.nodes[k - 1].(status := NodeFailed)];
      if j :| 0 <= j < |r.nodes| && Eligible(r.nodes[j]) {
        assert nodes[j] == r.nodes[j];
        assert Best(nodes) != -1;
      }
    } else {
      NothingWaits(g, now, k - 1);
    }
  }

  ghost predicate InRange(nodes: seq<Node>) {
    forall j | 0 <= j < |nodes| :: nodes[j].cpuLoad <= 1.0 && nodes[j].memoryUsage <= 1.0 && nodes[j].reputation >= 0.0
  }

  /**
   With metrics in range, tasks are left waiting after a failure exactly if no node is left to run the unfinished ones.
   */
  lemma {:induction false} WaitingIff(g: Grid, now: int)
    requires Safe(g.tasks, g.nodes) && InRange(g.nodes)
    requires exists j :: 0 <= j < |g.nodes| && TimesOut(g.nodes[j], now)
    ensures var r := Sweep(g, now, |g.nodes|);
            (exists i :: 0 <= i < |r.tasks| && Waiting(r.tasks[i])) <==>
            (exists i :: 0 <= i < |g.tasks| && !g.tasks[i].status.TaskCompleted?) &&
            !(exists j :: 0 <= j < |r.nodes| && Live(r.nodes[j]))
  {
    hide Sweep;
    var n := |g.nodes|;
    var r := Sweep(g, now, n);
    SweptNodes(g, now, n);
    NothingWaits(g, now, n);
    TasksCarried(g, now, n);
    SweepKeepsSafe(g, now, n);
    forall j | 0 <= j < |r.nodes| ensures Eligible(r.nodes[j]) <==> Live(r.nodes[j]) {
      assert r.nodes[j] == Swept(g.nodes[j], now);
      EligibleMeansLive(r.nodes[j]);
    }
    if i :| 0 <= i < |r.tasks| && Waiting(r.tasks[i]) {
      assert Carries(g.tasks[i], r.tasks[i]);
      assert !g.tasks[i].status.TaskCompleted?;
    }
    if !exists j :: 0 <= j < |r.nodes| && Live(r.nodes[j]) {
      if i :| 0 <= i < |g.tasks| && !g.tasks[i].status.TaskCompleted? {
        assert Carries(g.tasks[i], r.tasks[i]);
        assert Waiting(r.tasks[i]);
      }
    }
  }

  lemma {:induction false} QuietSweep(g: Grid, now: int, k: nat)
    requires k <= |g.nodes| && forall j | 0 <= j < k :: !TimesOut(g.nodes[j], now)
    ensures Sweep(g, now, k) == g
  {
    if k > 0 {
      QuietSweep(g, now, k - 1);
    }
  }

  // ----- the failed-node counter, and whole runs -----

  const failedWeight: Node -> nat := (n: Node) => if n.status.NodeFailed? then 1 else 0

  ghost predicate Counted(g: Grid) {
    g.failedNodes == Total(g.nodes, failedWeight)
  }

  lemma {:induction false} SweepKeepsCount(g: Grid, now: int, k: nat)
    requires k <= |g.nodes| && Counted(g)
    ensures Counted(Sweep(g, now, k))
  {
    if k > 0 {
      SweepKeepsCount(g, now, k - 1);
      var h := Sweep(g, now, k - 1);
      if TimesOut(h.nodes[k - 1], now) {
        TotalUpdate(h.nodes, k - 1, Fail(h, k - 1).nodes[k - 1], failedWeight);
        assert Fail(h, k - 1).nodes == h.nodes[k - 1 := Fail(h, k - 1).nodes[k - 1]];
      }
    }
  }

  lemma {:induction false} RecoverKeeps(g: Grid, id: int, now: int, k: nat)
    requires k <= |g.nodes| && Counted(g) && Safe(g.tasks, g.nodes)
    ensures var r := Recover(g, id, now, k); Counted(r) && Safe(r.tasks, r.nodes)
    decreases |g.nodes| - k
  {
    var r := Recover(g, id, now, k);
    if k < |g.nodes| {
      if g.nodes[k].id != id {
        RecoverKeeps(g, id, now, k + 1);
      } else if g.nodes[k].status.NodeFailed? {
        TotalUpdate(g.nodes, k, r.nodes[k], failedWeight);
        forall i | 0 <= i < |r.tasks| && r.tasks[i].status.TaskRunning? ensures OnLiveNode(r.tasks[i], r.nodes) {
          var j :| 0 <= j < |g.nodes| && g.nodes[j].id == r.tasks[i].assignedNode && Live(g.nodes[j]);
          assert r.nodes[j] == g.nodes[j];
        }
      }
    }
  }

  /**
   What happens to nodes and tasks, in any order. `Report` tells of a task's end only, as the scheduler alone sets tasks
   running; `Hear` is a heartbeat of node i with its new metrics.
   */
  datatype Operation =
    | Submit(task: Task, now: int)
    | Report(id: int, status: TaskStatus, now: int)
    | Monitor(now: int)
    | Restore(id: int, now: int)
    | Hear(i: nat, cpuLoad: real, memoryUsage: real, reputation: real, now: int)

  datatype System = System(grid: Grid, nextTaskId: int)

  function Apply(s: System, op: Operation): System {
    var g := s.grid;
    match op
    case Submit(task, now) =>
      var r := Schedule(task, g.nodes, |g.tasks|, s.nextTaskId, now);
      System(g.(tasks := g.tasks + r.appended), r.nextTaskId)
    case Report(id, status, now) => s.(grid := g.(tasks := Updated(g.tasks, id, status, now)))
    case Monitor(now) => s.(grid := Sweep(g, now, |g.nodes|))
    case Restore(id, now) => s.(grid := Recover(g, id, now, 0))
    case Hear(i, cpuLoad, memoryUsage, reputation, now) =>
      if i >= |g.nodes| then s
      else
        var n := g.nodes[i].(cpuLoad := cpuLoad, memoryUsage := memoryUsage, reputation := reputation);
        s.(grid := g.(nodes := g.nodes[i := n.(lastHeartbeat := now)]))
  }

  function ApplyAll(s: System, ops: seq<Operation>): System {
    if ops == [] then s else Apply(ApplyAll(s, ops[..|ops| - 1]), ops[|ops| - 1])
  }

  ghost predicate Invariant(s: System) {
    Counted(s.grid) && Safe(s.grid.tasks, s.grid.nodes)
  }

  lemma {:induction false} SubmitKeepsSafe(s: System, task: Task, now: int)
    requires Safe(s.grid.tasks, s.grid.nodes)
    ensures Safe(Apply(s, Submit(task, now)).grid.tasks, s.grid.nodes)
  {
    var nodes := s.grid.nodes;
    var r := Schedule(task, nodes, |s.grid.tasks|, s.nextTaskId, now);
    if r.appended != [] {
      var n := nodes[Best(nodes)];
      EligibleMeansLive(n);
      assert n.id == r.task.assignedNode && OnLiveNode(r.task, nodes);
    }
  }

  /** In every run of these operations running tasks are on live nodes and failed_nodes counts the failed nodes. */
  lemma {:induction false} EveryRunKeepsInvariant(s: System, ops: seq<Operation>)
    requires Invariant(s)
    requires forall i | 0 <= i < |ops| && ops[i].Report? :: !ops[i].status.TaskRunning?
    ensures Invariant(ApplyAll(s, ops))
  {
    hide Safe, Sweep, Recover, Schedule;
    if ops != [] {
      var n := |ops| - 1;
      EveryRunKeepsInvariant(s, ops[..n]);
      var t := ApplyAll(s, ops[..n]);
      match ops[n] {
        case Submit(task, now) => SubmitKeepsSafe(t, task, now);
        case Report(id, status, now) => ReportKeepsSafe(t, id, status, now);
        case Monitor(now) =>
          SweepKeepsCount(t.grid, now, |t.grid.nodes|);
          SweepKeepsSafe(t.grid, now, |t.grid.nodes|);
        case Restore(id, now) => RecoverKeeps(t.grid, id, now, 0);
        case Hear(i, cpuLoad, memoryUsage, reputation, now) => HearKeeps(t, ops[n]);
      }
    }
  }

  lemma {:induction false} HearKeeps(s: System, op: Operation)
    requires Invariant(s) && op.Hear?
    ensures Invariant(Apply(s, op))
  {
    var g, h := s.grid, Apply(s, op).grid;
    if op.i < |g.nodes| {
      TotalUpdate(g.nodes, op.i, h.nodes[op.i], failedWeight);
      forall k | 0 <= k < |h.tasks| && h.tasks[k].status.TaskRunning? ensures OnLiveNode(h.tasks[k], h.nodes) {
        var j :| 0 <= j < |g.nodes| && g.nodes[j].id == g.tasks[k].assignedNode && Live(g.nodes[j]);
        assert h.nodes[j].id == g.nodes[j].id && Live(h.nodes[j]);
      }
    }
  }

  lemma {:induction false} ReportKeepsSafe(s: System, id: int, status: TaskStatus, now: int)
    requires Safe(s.grid.tasks, s.grid.nodes) && !status.TaskRunning?
    ensures Safe(Apply(s, Report(id, status, now)).grid.tasks, s.grid.nodes)
  {
  }

  /** Tasks are told apart by ids below the next one the scheduler gives out. */
  ghost predicate IdsDistinct(s: System) {
    && (forall i | 0 <= i < |s.grid.tasks| :: s.grid.tasks[i].id < s.nextTaskId)
    && (forall i, j | 0 <= i < j < |s.grid.tasks| :: s.grid.tasks[i].id != s.grid.tasks[j].id)
  }

  lemma {:induction false} SubmitKeepsDistinct(s: System, task: Task, now: int)
    requires IdsDistinct(s) && task.id == 0
    ensures IdsDistinct(Apply(s, Submit(task, now)))
  {
    hide Best;
  }

  lemma {:induction false} SameIdsDistinct(s: System, s': System)
    requires IdsDistinct(s) && s'.nextTaskId == s.nextTaskId && |s'.grid.tasks| == |s.grid.tasks|
    requires forall i | 0 <= i < |s.grid.tasks| :: s'.grid.tasks[i].id == s.grid.tasks[i].id
    ensures IdsDistinct(s')
  {
  }

  /** As long as the scheduler names the tasks, no two ever share an id. */
  lemma {:induction false} NamedTasksStayDistinct(s: System, ops: seq<Operation>)
    requires IdsDistinct(s) && forall i | 0 <= i < |ops| && ops[i].Submit? :: ops[i].task.id == 0
    ensures IdsDistinct(ApplyAll(s, ops))
  {
    hide Sweep, Recover, Schedule, IdsDistinct;
    if ops != [] {
      var n := |ops| - 1;
      NamedTasksStayDistinct(s, ops[..n]);
      var t := ApplyAll(s, ops[..n]);
      match ops[n] {
        case Submit(task, now) => SubmitKeepsDistinct(t, task, now);
        case Monitor(now) => TasksCarried(t.grid, now, |t.grid.nodes|);
        case Restore(id, now) => RecoverKeepsTasks(t.grid, id, now, 0);
        case Hear(_, _, _, _, _) =>
        case Report(_, _, _) =>
      }
      if !ops[n].Submit? {
        SameIdsDistinct(t, Apply(t, ops[n]));
      }
    }
  }

  lemma {:induction false} RecoverKeepsTasks(g: Grid, id: int, now: int, k: nat)
    requires k <= |g.nodes|
    ensures Recover(g, id, now, k).tasks == g.tasks
    decreases |g.nodes| - k
  {
    if k < |g.nodes| {
      RecoverKeepsTasks(g, id, now, k + 1);
    }
  }
}
